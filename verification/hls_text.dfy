/** From lines back to text: an accepted manifest is rewritten into one that is accepted again. */
module HlsText {
  import opened Wrappers
  import opened TextSpans
  import opened HlsAttributes
  import opened HlsLines
  import opened HlsMeaning

  predicate LineByte(c: char) {
    TextByte(c) && c != '\r' && c != '\n'
  }

  ghost predicate CleanLines(lines: seq<string>) {
    forall i :: 0 <= i < |lines| ==> All(lines[i], LineByte)
  }

  predicate IsSeparator(sep: string) {
    sep == "\n" || sep == "\r\n"
  }

  /** The text is made of separators and of bytes that are in no separator. */
  ghost predicate OneStyle(text: string, sep: string)
    requires sep != ""
    decreases |text|
  {
    text == ""
    || if sep <= text then OneStyle(text[|sep|..], sep)
       else text[0] != '\r' && text[0] != '\n' && OneStyle(text[1..], sep)
  }

  predicate LedAt(text: string, i: nat)
    requires i < |text|
  {
    text[i] == '\n' ==> i > 0 && text[i - 1] == '\r'
  }

  /** Carriage returns and line feeds come in pairs only. */
  ghost predicate Paired(text: string) {
    forall i :: 0 <= i < |text| ==> PairedAt(text, i) && LedAt(text, i)
  }

  lemma PairedTail(text: string, n: nat)
    requires Paired(text) && text != "" && (if "\r\n" <= text then n == 2 else n == 1)
    ensures n <= |text| && Paired(text[n..])
    ensures n == 1 ==> text[0] != '\r' && text[0] != '\n'
  {
    assert PairedAt(text, 0) && LedAt(text, 0);
    var rest := text[n..];
    assert text[n - 1] != '\r';
    forall i | 0 <= i < |rest| ensures PairedAt(rest, i) && LedAt(rest, i) {
      assert PairedAt(text, i + n) && LedAt(text, i + n);
    }
  }

  lemma {:induction false} PairedStyle(text: string)
    requires Paired(text)
    ensures OneStyle(text, "\r\n")
    decreases |text|
  {
    if text != "" {
      var n := if "\r\n" <= text then 2 else 1;
      PairedTail(text, n);
      PairedStyle(text[n..]);
    }
  }

  lemma {:induction false} StylePaired(text: string)
    requires OneStyle(text, "\r\n")
    ensures Paired(text)
    decreases |text|
  {
    if text != "" {
      var n := if "\r\n" <= text then 2 else 1;
      var rest := text[n..];
      StylePaired(rest);
      forall i | 0 <= i < |text| ensures PairedAt(text, i) && LedAt(text, i) {
        if i >= n {
          assert text[i] == rest[i - n] && PairedAt(rest, i - n) && LedAt(rest, i - n);
        }
      }
    }
  }

  lemma {:induction false} FeedStyle(text: string)
    ensures OneStyle(text, "\n") <==> '\r' !in text
    decreases |text|
  {
    if text != "" {
      FeedStyle(text[1..]);
      assert text == [text[0]] + text[1..];
    }
  }

  lemma CleanStyle(text: string)
    requires CleanText(text)
    ensures OneStyle(text, Separator(text))
  {
    FeedStyle(text);
    if HasCrLf(text) {
      forall i | 0 <= i < |text| ensures PairedAt(text, i) && LedAt(text, i) {
      }
      PairedStyle(text);
    }
  }

  lemma {:induction false} SplitClean(text: string, sep: string)
    requires IsSeparator(sep) && OneStyle(text, sep) && All(text, TextByte)
    ensures CleanLines(Split(text, sep)) && Join(Split(text, sep), sep) == text
    decreases |text|
  {
    if text == "" {
    } else if sep <= text {
      var rest := text[|sep|..];
      assert All(rest, TextByte) by { AllTail(text, |sep|); }
      SplitClean(rest, sep);
      EmptyLine(Split(rest, sep), sep);
      assert text == sep + rest;
    } else {
      var rest := text[1..];
      assert All(rest, TextByte) by { AllTail(text, 1); }
      assert LineByte(text[0]);
      SplitClean(rest, sep);
      FirstLine(text[0], Split(rest, sep), sep);
      assert text == [text[0]] + rest;
    }
  }

  lemma AllTail(text: string, n: nat)
    requires All(text, TextByte) && n <= |text|
    ensures All(text[n..], TextByte)
  {
  }

  lemma EmptyLine(rest: seq<string>, sep: string)
    requires rest != [] && CleanLines(rest)
    ensures CleanLines([""] + rest) && Join([""] + rest, sep) == sep + Join(rest, sep)
  {
    assert ([""] + rest)[1..] == rest;
    assert "" + sep + Join(rest, sep) == sep + Join(rest, sep);
    forall i | 0 <= i < |[""] + rest| ensures All(([""] + rest)[i], LineByte) {
      if i > 0 {
        assert All(rest[i - 1], LineByte);
      }
    }
  }

  lemma FirstLine(c: char, rest: seq<string>, sep: string)
    requires rest != [] && CleanLines(rest) && LineByte(c)
    ensures CleanLines([[c] + rest[0]] + rest[1..])
    ensures Join([[c] + rest[0]] + rest[1..], sep) == [c] + Join(rest, sep)
  {
    var out := [[c] + rest[0]] + rest[1..];
    forall i | 0 <= i < |out| ensures All(out[i], LineByte) {
      assert All(rest[i], LineByte);
      assert i > 0 ==> out[i] == rest[i];
    }
    assert out[1..] == rest[1..];
    if |rest| > 1 {
      assert [c] + rest[0] + sep + Join(rest[1..], sep) == [c] + (rest[0] + sep + Join(rest[1..], sep));
    }
  }

  lemma {:induction false} SplitLine(line: string, sep: string, rest: string)
    requires IsSeparator(sep) && All(line, LineByte) && (rest == "" || sep <= rest)
    ensures Split(line + rest, sep) == [line + Split(rest, sep)[0]] + Split(rest, sep)[1..]
    decreases |line|
  {
    if line == "" {
      assert line + rest == rest && "" + Split(rest, sep)[0] == Split(rest, sep)[0];
    } else {
      assert LineByte(line[0]);
      assert All(line[1..], LineByte) by { assert forall i :: 1 <= i < |line| ==> LineByte(line[i]); }
      SplitLine(line[1..], sep, rest);
      var text := line + rest;
      assert text[1..] == line[1..] + rest && text[0] == line[0];
      assert !(sep <= text);
      assert [line[0]] + (line[1..] + Split(rest, sep)[0]) == line + Split(rest, sep)[0];
    }
  }

  /** Splitting what was joined from clean lines gives the lines back. */
  lemma {:induction false} SplitJoin(lines: seq<string>, sep: string)
    requires IsSeparator(sep) && lines != [] && CleanLines(lines)
    ensures Split(Join(lines, sep), sep) == lines
    decreases |lines|
  {
    var first := lines[0];
    assert All(first, LineByte);
    if |lines| > 1 {
      var rest := Join(lines[1..], sep);
      assert CleanLines(lines[1..]) by { assert forall i :: 1 <= i < |lines| ==> All(lines[i], LineByte); }
      SplitJoin(lines[1..], sep);
      SplitLine(first, sep, sep + rest);
      SplitSeparator(sep, rest);
      OneMore(first, lines[1..]);
      assert first + sep + rest == first + (sep + rest);
    } else {
      SplitLine(first, sep, "");
      assert Join(lines, sep) == first + "" && first + "" == first && lines == [first];
    }
  }

  lemma SplitSeparator(sep: string, rest: string)
    requires IsSeparator(sep)
    ensures Split(sep + rest, sep) == [""] + Split(rest, sep)
  {
    Cut(sep, rest);
  }

  lemma OneMore(first: string, rest: seq<string>)
    ensures [first + ([""] + rest)[0]] + ([""] + rest)[1..] == [first] + rest
  {
    assert ([""] + rest)[1..] == rest && first + ([""] + rest)[0] == first;
  }

  /** Joined clean lines are clean text in the style of the separator. */
  lemma {:induction false} JoinBytes(lines: seq<string>, sep: string)
    requires IsSeparator(sep) && lines != [] && CleanLines(lines)
    ensures All(Join(lines, sep), TextByte) && OneStyle(Join(lines, sep), sep)
    decreases |lines|
  {
    var first := lines[0];
    assert All(first, LineByte);
    hide LineByte, OneStyle, TextByte;
    if |lines| > 1 {
      var rest := Join(lines[1..], sep);
      assert CleanLines(lines[1..]) by { assert forall i :: 1 <= i < |lines| ==> All(lines[i], LineByte); }
      JoinBytes(lines[1..], sep);
      SeparatorStyle(sep, rest);
      LineStyle(first, sep, sep + rest);
      assert first + sep + rest == first + (sep + rest);
    } else {
      NoStyle(sep);
      LineStyle(first, sep, "");
      assert first + "" == first;
    }
  }

  lemma SeparatorStyle(sep: string, rest: string)
    requires IsSeparator(sep) && OneStyle(rest, sep) && All(rest, TextByte)
    ensures OneStyle(sep + rest, sep) && All(sep + rest, TextByte) && sep <= sep + rest
  {
    Cut(sep, rest);
  }

  lemma NoStyle(sep: string)
    requires IsSeparator(sep)
    ensures OneStyle("", sep) && All("", TextByte)
  {
  }

  lemma FrontByte(c: char, rest: string)
    requires TextByte(c) && All(rest, TextByte)
    ensures All([c] + rest, TextByte)
  {
  }

  lemma {:induction false} LineStyle(line: string, sep: string, rest: string)
    requires IsSeparator(sep) && All(line, LineByte) && (rest == "" || sep <= rest)
    ensures OneStyle(rest, sep) ==> OneStyle(line + rest, sep)
    ensures All(rest, TextByte) ==> All(line + rest, TextByte)
    decreases |line|
  {
    if line == "" {
      assert line + rest == rest;
    } else {
      assert LineByte(line[0]);
      assert All(line[1..], LineByte) by { assert forall i :: 1 <= i < |line| ==> LineByte(line[i]); }
      LineStyle(line[1..], sep, rest);
      var text := line + rest;
      assert text[1..] == line[1..] + rest && text[0] == line[0];
      assert !(sep <= text);
      if All(rest, TextByte) {
        FrontByte(text[0], text[1..]);
        assert text == [text[0]] + text[1..];
      }
    }
  }

  lemma HasFeed(lines: seq<string>, sep: string)
    requires IsSeparator(sep) && |lines| > 1
    ensures exists i :: 0 <= i < |Join(lines, sep)| && Join(lines, sep)[i] == '\n'
  {
    var at := |lines[0]| + |sep| - 1;
    var rest := Join(lines[1..], sep);
    assert Join(lines, sep) == lines[0] + sep + rest;
    assert (lines[0] + sep + rest)[at] == sep[|sep| - 1];
  }

  lemma JoinClean(lines: seq<string>, sep: string)
    requires IsSeparator(sep) && |lines| > 1 && CleanLines(lines)
    ensures CleanText(Join(lines, sep)) && Separator(Join(lines, sep)) == sep
  {
    var text := Join(lines, sep);
    JoinBytes(lines, sep);
    HasFeed(lines, sep);
    hide Join;
    if sep == "\r\n" {
      StylePaired(text);
      PairedClean(text);
    } else {
      FeedStyle(text);
      FeedClean(text);
    }
  }

  lemma PairedClean(text: string)
    requires Paired(text) && All(text, TextByte) && '\n' in text
    ensures CleanText(text) && Separator(text) == "\r\n"
  {
    var i :| 0 <= i < |text| && text[i] == '\n';
    assert LedAt(text, i);
    forall j | 0 <= j < |text| ensures PairedAt(text, j) && LedAt(text, j) {
    }
    if HasLf(text) {
      var k :| 0 <= k < |text| && text[k] == '\n' && (k == 0 || text[k - 1] != '\r');
      OnlyAfterReturn(text, k);
    }
  }

  lemma OnlyAfterReturn(text: string, k: nat)
    requires Paired(text) && k < |text| && text[k] == '\n'
    ensures k > 0 && text[k - 1] == '\r'
  {
    assert LedAt(text, k);
  }

  lemma FeedClean(text: string)
    requires '\r' !in text && All(text, TextByte) && text != ""
    ensures CleanText(text) && Separator(text) == "\n"
  {
    forall i | 0 <= i < |text| ensures text[i] != '\r' && PairedAt(text, i) {
      assert text[i] in text;
    }
    assert !HasCrLf(text);
  }

  // ---------- rewritten lines are clean ----------

  lemma {:induction false} PrintedBytes(attrs: seq<Attr>)
    requires ValidAll(attrs)
    ensures All(PrintAll(attrs), LineByte)
    decreases |attrs|
  {
    assert ValidAttr(attrs[0]);
    OneBytes(attrs[0]);
    if |attrs| > 1 {
      assert ValidAll(attrs[1..]) by { assert forall i :: 1 <= i < |attrs| ==> ValidAttr(attrs[i]); }
      PrintedBytes(attrs[1..]);
      Concat(Print(attrs[0]), ",");
      Concat(Print(attrs[0]) + ",", PrintAll(attrs[1..]));
    }
  }

  lemma Concat(a: string, b: string)
    requires All(a, LineByte) && All(b, LineByte)
    ensures All(a + b, LineByte)
  {
  }

  lemma OneBytes(a: Attr)
    requires ValidAttr(a)
    ensures All(Print(a), LineByte)
  {
    assert forall i :: 0 <= i < |a.name| ==> IsNameByte(a.name[i]);
    assert forall i :: 0 <= i < |a.content| ==> IsQuotedByte(a.content[i]) || IsPlainByte(a.content[i]);
    Concat(a.name, "=");
    Concat(a.name + "=", if a.quoted then "\"" else "");
    Concat(Opening(a), a.content);
    Concat(Opening(a) + a.content, Closing(a));
  }

  lemma StepBytes(rw: Rewriter, next: Rewriter, index: nat, st: State, line: string)
    requires Fits(rw, next) && Step(rw, index, st, line).Some? && All(line, LineByte)
    ensures All(Step(rw, index, st, line).value.line, LineByte)
  {
    hide Fits, UriLineStep, RewriteTagLine, TagState, DateRangeOk, UriNames, Parse, TagOf, SameButUris, LineByte;
    if index != 0 && IsUriLine(line) {
      UriBytes(rw, next, index, st, line);
    } else if index != 0 && IsTagLine(line) && UriNames(TagOf(line)) != {} {
      TagBytes(rw, next, index, line);
    }
  }

  lemma UriBytes(rw: Rewriter, next: Rewriter, index: nat, st: State, line: string)
    requires Fits(rw, next) && UriLineStep(rw, index, st, line).Some?
    ensures All(UriLineStep(rw, index, st, line).value.line, LineByte)
  {
    var kind := if st.expectUri then Manifest else Resource;
    assert AnswerFits(rw, next, index, 0, line, kind);
    var w := rw.uri(index, 0, line, kind).value;
    assert forall i :: 0 <= i < |w| ==> IsVisible(w[i]);
  }

  lemma TagBytes(rw: Rewriter, next: Rewriter, index: nat, line: string)
    requires Fits(rw, next) && RewriteTagLine(rw, index, line).Some? && All(line, LineByte)
    ensures All(RewriteTagLine(rw, index, line).value, LineByte)
  {
    hide Parse, Fits, UriNames, TagAccepts, NewAttrs, PrintAll, SameButUris, ValidAll, Unrepeated, LineByte;
    var colon := ColonAt(line);
    var attrs := Parse(line[colon + 1..]).value;
    var changed := NewAttrs(rw, index, line[..colon], attrs, 0).value;
    NewAttrsSame(rw, index, line[..colon], attrs);
    ReadableExactly(line[colon + 1..], attrs);
    AttrsValidAgain(rw, next, index, line[..colon], attrs, changed);
    PrintedBytes(changed);
    assert forall i :: 0 <= i < colon + 1 ==> LineByte(line[i]);
    Concat(line[..colon + 1], PrintAll(changed));
  }

  lemma {:induction false} RunBytes(rw: Rewriter, next: Rewriter, index: nat, st: State, lines: seq<string>)
    requires Fits(rw, next) && Run(rw, index, st, lines).Some? && CleanLines(lines)
    ensures var out := Run(rw, index, st, lines).value.lines; |out| == |lines| && CleanLines(out)
    ensures index == 0 && lines != [] ==> Run(rw, index, st, lines).value.lines[0] == lines[0]
    decreases |lines|
  {
    hide Fits, LineByte, UriLineStep, TagLineStep;
    if lines != [] {
      assert All(lines[0], LineByte);
      StepBytes(rw, next, index, st, lines[0]);
      assert forall i :: 1 <= i < |lines| ==> All(lines[i], LineByte);
      RunBytes(rw, next, index + 1, Step(rw, index, st, lines[0]).value.state, lines[1..]);
    }
  }

  lemma OneLineHasNoType(rw: Rewriter, line: string)
    requires Run(rw, 0, Start(), [line]).Some?
    ensures Run(rw, 0, Start(), [line]).value.state == Start()
  {
    assert [line][1..] == [];
  }

  /**
   A rewritten manifest is accepted again, line for line and with the same type, by any
   rewriter that accepts the rewritten URIs; they must not contain quotes or spaces, and
   no line may have grown over the limit.
   */
  lemma AcceptedAgain(rw: Rewriter, next: Rewriter, maxLines: nat, text: string)
    requires Fits(rw, next) && Transform(rw, maxLines, text).Some?
    requires Short(Transform(rw, maxLines, text).value.lines)
    ensures var r := Transform(rw, maxLines, text).value; var out := Join(r.lines, Separator(text));
      && Split(out, Separator(out)) == r.lines
      && Transform(next, maxLines, out).Some?
      && Transform(next, maxLines, out).value.state == r.state
  {
    hide Run, Split, Join, Fits, CleanText, Short, OneStyle, CleanLines, Separator, IsSeparator;
    TextBytes(text);
    var sep := Separator(text);
    var lines := Split(text, sep);
    CleanStyle(text);
    SplitClean(text, sep);
    var r := Run(rw, 0, Start(), lines).value;
    RunBytes(rw, next, 0, Start(), lines);
    if |lines| == 1 {
      assert lines == [lines[0]];
      OneLineHasNoType(rw, lines[0]);
    }
    JoinClean(r.lines, sep);
    SplitJoin(r.lines, sep);
    RunAgain(rw, next, 0, Start(), lines);
  }

  lemma TextBytes(text: string)
    requires CleanText(text)
    ensures All(text, TextByte) && IsSeparator(Separator(text)) && Separator(text) != ""
  {
  }

  /**
   An accepted manifest is of one type, every STREAM-INF in it is followed by its URI,
   and each line is kept but for URIs, whatever those are rewritten to.
   */
  lemma AcceptedShape(rw: Rewriter, maxLines: nat, text: string)
    requires Transform(rw, maxLines, text).Some?
    ensures var r := Transform(rw, maxLines, text).value; var lines := Split(text, Separator(text));
      && r.state.multivariant != r.state.media
      && |r.lines| == |lines|
      && (forall i :: 0 < i < |lines| && IsStreamInf(lines[i]) ==> i + 1 < |lines| && IsUriLine(lines[i + 1]))
      && (forall i :: 0 <= i < |lines| ==> LineKept(rw, i, lines[i], r.lines[i]))
  {
    hide Run, Split, Join, CleanText, IsStreamInf, IsUriLine, LineKept;
    var lines := Split(text, Separator(text));
    var r := Run(rw, 0, Start(), lines).value;
    OneType(rw, 0, Start(), lines);
    RunKeeps(rw, 0, Start(), lines);
    assert forall i :: 0 <= i < |lines| ==> LineKept(rw, 0 + i, lines[i], r.lines[i]);
    forall i | 0 < i < |lines| && IsStreamInf(lines[i]) ensures i + 1 < |lines| && IsUriLine(lines[i + 1]) {
      VariantsFollowed(rw, 0, Start(), lines, i);
    }
  }

  /** With URIs that are accepted again, every STREAM-INF of the output is followed by its URI too. */
  lemma OutputVariants(rw: Rewriter, next: Rewriter, maxLines: nat, text: string, i: nat)
    requires Fits(rw, next) && Transform(rw, maxLines, text).Some?
    requires Short(Transform(rw, maxLines, text).value.lines)
    requires var out := Transform(rw, maxLines, text).value.lines; 0 < i < |out| && IsStreamInf(out[i])
    ensures var out := Transform(rw, maxLines, text).value.lines; i + 1 < |out| && IsUriLine(out[i + 1])
  {
    hide Run, Split, Join, Fits, CleanText, Short, IsStreamInf, IsUriLine;
    var lines := Split(text, Separator(text));
    RunAgain(rw, next, 0, Start(), lines);
    VariantsFollowed(next, 0, Start(), Run(rw, 0, Start(), lines).value.lines, i);
  }
}
