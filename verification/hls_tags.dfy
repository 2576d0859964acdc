/** The tables and characters of HLS, spelled out: tags, versions, attributes and lines (RFC 8216, sections 4.1 to 4.4). */
module HlsTags {
  import opened Wrappers
  import opened TextSpans
  import opened HlsAttributes
  import opened HlsLines
  import opened DashStrings

  // ---------- tags ----------

  /** The tag of a line is what stands before its first colon, or the whole line. */
  lemma TagNamed(line: string, tag: string)
    ensures TagOf(line) == tag <==> ':' !in tag && (line == tag || tag + ":" <= line)
  {
    var i := ColonAt(line);
    if ':' !in tag && tag + ":" <= line {
      assert line[|tag|] == (tag + ":")[|tag|] == ':';
      assert forall j :: 0 <= j < |tag| ==> line[j] == (tag + ":")[j] == tag[j];
      assert line[..|tag|] == tag;
    }
    if i >= 0 {
      assert line[..i + 1] == line[..i] + ":";
    }
  }

  /** In a multivariant playlist only, in a media playlist only, in either, or refused. */
  datatype Place = InMultivariant | InMedia | InEither | Refused

  function PlaceOf(tag: string): Place {
    match tag
    case "#EXT-X-MEDIA" => InMultivariant
    case "#EXT-X-STREAM-INF" => InMultivariant
    case "#EXT-X-I-FRAME-STREAM-INF" => InMultivariant
    case "#EXT-X-IMAGE-STREAM-INF" => InMultivariant
    case "#EXT-X-SESSION-DATA" => InMultivariant
    case "#EXT-X-SESSION-KEY" => InMultivariant
    case "#EXTINF" => InMedia
    case "#EXT-X-KEY" => InMedia
    case "#EXT-X-BYTERANGE" => InMedia
    case "#EXT-X-DISCONTINUITY" => InMedia
    case "#EXT-X-MAP" => InMedia
    case "#EXT-X-PROGRAM-DATE-TIME" => InMedia
    case "#EXT-X-GAP" => InMedia
    case "#EXT-X-BITRATE" => InMedia
    case "#EXT-X-DATERANGE" => InMedia
    case "#EXT-X-TARGETDURATION" => InMedia
    case "#EXT-X-MEDIA-SEQUENCE" => InMedia
    case "#EXT-X-DISCONTINUITY-SEQUENCE" => InMedia
    case "#EXT-X-ENDLIST" => InMedia
    case "#EXT-X-PLAYLIST-TYPE" => InMedia
    case "#EXT-X-I-FRAMES-ONLY" => InMedia
    case "#EXT-X-PART" => InMedia
    case "#EXT-X-SERVER-CONTROL" => InMedia
    case "#EXT-X-PART-INF" => InMedia
    case "#EXT-X-PRELOAD-HINT" => InMedia
    case "#EXT-X-RENDITION-REPORT" => InMedia
    case "#EXT-X-SKIP" => InMedia
    case "#EXT-X-VERSION" => InEither
    case "#EXT-X-START" => InEither
    case "#EXT-X-INDEPENDENT-SEGMENTS" => InEither
    case "#EXT-X-ALLOW-CACHE" => InEither
    case _ => Refused
  }

  /** Every tag has its place; one that is refused is a comment if it does not start like a tag. */
  lemma TagsExactly(tag: string)
    ensures MultivariantTag(tag) <==> PlaceOf(tag).InMultivariant?
    ensures MediaTag(tag) <==> PlaceOf(tag).InMedia?
    ensures KnownTag(tag) && tag != "#EXT-X-DEFINE" && tag != "#EXT-X-CONTENT-STEERING" <==> !PlaceOf(tag).Refused?
    ensures SingletonTag(tag)
      <==> tag in {"#EXT-X-VERSION", "#EXT-X-START", "#EXT-X-INDEPENDENT-SEGMENTS", "#EXT-X-SKIP"}
  {
  }

  // ---------- versions ----------

  predicate Zeros(s: string) {
    forall i :: 0 <= i < |s| ==> s[i] == '0'
  }

  lemma LastDigit(s: string, n: nat)
    requires Digits(s) == Some(n) && |s| > 1
    ensures Digits(s[..|s| - 1]) == Some(n / 10) && s[|s| - 1] as int == '0' as int + n % 10
  {
  }

  lemma ItoaLonger(n: nat)
    ensures n >= 10 ==> Itoa(n) == Itoa(n / 10) + [('0' as int + n % 10) as char]
    ensures n < 10 ==> Itoa(n / 10) == "0" && Itoa(n) == [('0' as int + n % 10) as char]
  {
  }

  lemma {:induction false} DigitsRead(s: string, n: nat) returns (zeros: string)
    requires Digits(s) == Some(n)
    ensures Zeros(zeros) && s == zeros + Itoa(n)
    decreases |s|
  {
    hide Itoa;
    ItoaLonger(n);
    if |s| == 1 {
      zeros := "";
      assert s == [s[0]];
    } else {
      LastDigit(s, n);
      var shorter, last := s[..|s| - 1], s[|s| - 1];
      var before := DigitsRead(shorter, n / 10);
      assert s == shorter + [last];
      if n < 10 {
        zeros := before + "0";
      } else {
        zeros := before;
        assert zeros + (Itoa(n / 10) + [last]) == (zeros + Itoa(n / 10)) + [last];
      }
    }
  }

  lemma {:induction false} DigitsWritten(zeros: string, n: nat)
    requires Zeros(zeros)
    ensures Digits(zeros + Itoa(n)) == Some(n)
    decreases n, |zeros|
  {
    var s := zeros + Itoa(n);
    if n >= 10 {
      DigitsWritten(zeros, n / 10);
      assert s[..|s| - 1] == zeros + Itoa(n / 10);
    } else if zeros != "" {
      ZeroDigits(zeros);
      assert s[..|s| - 1] == zeros;
    }
  }

  lemma {:induction false} ZeroDigits(zeros: string)
    requires Zeros(zeros) && zeros != ""
    ensures Digits(zeros) == Some(0)
    decreases |zeros|
  {
    if |zeros| > 1 {
      ZeroDigits(zeros[..|zeros| - 1]);
    }
  }

  ghost predicate Version(line: string, sign: string, zeros: string, n: nat) {
    sign in {"", "+"} && Zeros(zeros) && 1 <= n <= 13 && line == "#EXT-X-VERSION:" + sign + zeros + Itoa(n)
  }

  /** What Atoi is given. */
  predicate VersionText(text: string) {
    var unsigned := if text != "" && text[0] == '+' then text[1..] else text;
    Digits(unsigned).Some? && 1 <= Digits(unsigned).value <= 13
  }

  ghost predicate Numbered(text: string, sign: string, zeros: string, n: nat) {
    sign in {"", "+"} && Zeros(zeros) && 1 <= n <= 13 && text == sign + (zeros + Itoa(n))
  }

  lemma TextRead(text: string) returns (sign: string, zeros: string, n: nat)
    requires VersionText(text)
    ensures Numbered(text, sign, zeros, n)
  {
    hide Digits, Itoa;
    sign := if text != "" && text[0] == '+' then "+" else "";
    var rest := if sign == "+" then text[1..] else text;
    assert text == sign + rest;
    n := Digits(rest).value;
    zeros := DigitsRead(rest, n);
  }

  lemma TextWritten(text: string, sign: string, zeros: string, n: nat)
    requires Numbered(text, sign, zeros, n)
    ensures VersionText(text)
  {
    hide Digits, Itoa;
    var rest := zeros + Itoa(n);
    DigitsWritten(zeros, n);
    FirstIsDigit(zeros, n);
    if sign == "+" {
      assert text[1..] == rest;
    } else {
      assert text == rest;
    }
  }

  lemma HeadFirst(line: string)
    requires "#EXT-X-VERSION:" <= line
    ensures VersionOk(line) <==> VersionText(line[15..])
    ensures line == "#EXT-X-VERSION:" + line[15..]
  {
  }

  lemma Grouped(head: string, sign: string, zeros: string, n: string)
    ensures head + sign + zeros + n == head + (sign + (zeros + n))
    ensures (head + (sign + (zeros + n)))[|head|..] == sign + (zeros + n) && head <= head + (sign + (zeros + n))
  {
  }

  /** A version line that is accepted has a decimal number from 1 to 13, perhaps with a plus sign and zeros in front. */
  lemma VersionExactly(line: string)
    requires TagOf(line) == "#EXT-X-VERSION"
    ensures VersionOk(line) <==> exists sign, zeros, n :: Version(line, sign, zeros, n)
  {
    hide VersionText, VersionOk, Itoa, Zeros;
    if VersionOk(line) {
      WithColon(line);
      HeadFirst(line);
      var sign, zeros, n := TextRead(line[15..]);
      Grouped("#EXT-X-VERSION:", sign, zeros, Itoa(n));
      assert Version(line, sign, zeros, n);
    }
    forall sign, zeros, n | Version(line, sign, zeros, n) ensures VersionOk(line) {
      Grouped("#EXT-X-VERSION:", sign, zeros, Itoa(n));
      HeadFirst(line);
      TextWritten(line[15..], sign, zeros, n);
    }
  }

  lemma FirstIsDigit(zeros: string, n: nat)
    requires Zeros(zeros)
    ensures zeros + Itoa(n) != "" && Digit((zeros + Itoa(n))[0])
  {
  }

  /** Without a colon the whole tag would have to be a number. */
  lemma WithColon(line: string)
    requires TagOf(line) == "#EXT-X-VERSION" && VersionOk(line)
    ensures "#EXT-X-VERSION:" <= line
  {
    if !("#EXT-X-VERSION:" <= line) {
      NotDigits(line);
    }
  }

  lemma {:induction false} NotDigits(s: string)
    requires s != "" && s[0] == '#'
    ensures Digits(s).None?
    decreases |s|
  {
    if |s| > 1 {
      NotDigits(s[..|s| - 1]);
    }
  }

  // ---------- characters ----------

  predicate NameOk(s: string) {
    s != "" && forall i :: 0 <= i < |s| ==> 'A' <= s[i] <= 'Z' || '0' <= s[i] <= '9' || s[i] == '-'
  }

  predicate AttrOk(a: Attr) {
    && NameOk(a.name)
    && (a.quoted ==> forall i :: 0 <= i < |a.content| ==> a.content[i] >= ' ' && a.content[i] != '"' && a.content[i] != 0x7f as char)
    && (!a.quoted ==> a.content != "" && a.content[0] != '"'
                      && forall i :: 0 <= i < |a.content| ==> a.content[i] > ' ' && a.content[i] != ',' && a.content[i] != 0x7f as char)
  }

  lemma AttrExactly(a: Attr)
    ensures ValidAttr(a) <==> AttrOk(a)
  {
  }

  /** One to 256 attributes, all well-formed, no name twice. */
  ghost predicate ListOk(attrs: seq<Attr>) {
    && 1 <= |attrs| <= 256 && (forall i :: 0 <= i < |attrs| ==> AttrOk(attrs[i]))
    && forall i, j :: 0 <= i < j < |attrs| ==> attrs[i].name != attrs[j].name
  }

  lemma ListExactly(attrs: seq<Attr>)
    ensures ValidAll(attrs) && Unrepeated(attrs) && |attrs| <= MAX_ATTRIBUTES <==> ListOk(attrs)
  {
    hide ValidAttr, AttrOk;
    forall i | 0 <= i < |attrs| ensures ValidAttr(attrs[i]) <==> AttrOk(attrs[i]) {
      AttrExactly(attrs[i]);
    }
  }

  /** No control characters but tabs and line ends; these are all line feeds or all carriage returns with one. */
  ghost predicate TextOk(text: string) {
    && text != ""
    && (forall i :: 0 <= i < |text| ==> (text[i] >= ' ' || text[i] in {'\t', '\r', '\n'}) && text[i] != 0x7f as char)
    && ('\r' !in text || forall i: nat :: Line(text, i, '\r') == Line(text, i + 1, '\n'))
    && ('\r' in text ==> text[0] != '\n')
  }

  predicate Line(text: string, i: nat, c: char) {
    i < |text| && text[i] == c
  }

  lemma TextExactly(text: string)
    ensures CleanText(text) <==> TextOk(text)
  {
    if CleanText(text) && '\r' in text {
      forall i: nat ensures Line(text, i, '\r') == Line(text, i + 1, '\n') {
        if i < |text| {
          assert PairedAt(text, i);
        }
      }
    }
    if TextOk(text) {
      forall i | 0 <= i < |text| ensures PairedAt(text, i) && TextByte(text[i]) {
        assert Line(text, i, '\r') ==> '\r' in text;
        assert '\r' in text ==> Line(text, i, '\r') == Line(text, i + 1, '\n');
      }
      if HasCrLf(text) {
        forall i | 0 <= i < |text| && text[i] == '\n' ensures i > 0 && text[i - 1] == '\r' {
          assert i > 0 ==> Line(text, i - 1, '\r') == Line(text, i - 1 + 1, '\n');
        }
      }
    }
  }
}
