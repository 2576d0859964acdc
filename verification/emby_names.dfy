/**
 What editing an authorization value means letter by letter: which names and schemes
 count, in any letter case, and what is left of the attributes.
 */
module EmbyNames {
  import opened Wrappers
  import opened TextSpans
  import opened EmbySpec
  import opened EmbyEdit
  import opened EmbyRewrite

  /** The names that count as Token. */
  lemma SpelledByLetters(name: string)
    ensures Spelled(name, "Token")
      <==> |name| == 5 && name[0] in {'T', 't'} && name[1] in {'O', 'o'} && name[2] in {'K', 'k'} && name[3] in {'E', 'e'}
           && name[4] in {'N', 'n'}
  {
    if Spelled(name, "Token") {
      assert SameLetter(name[0], 'T') && SameLetter(name[1], 'o') && SameLetter(name[2], 'k') && SameLetter(name[3], 'e')
          && SameLetter(name[4], 'n');
    }
  }

  lemma FoldExactly(a: string, b: string)
    ensures Fold(a, b) <==> Spelled(a, b)
  {
    if Fold(a, b) {
      forall i | 0 <= i < |a| ensures SameLetter(a[i], b[i]) {
        assert Lower(a[i]) == Lower(b[i]);
      }
    }
    if Spelled(a, b) {
      forall i | 0 <= i < |a| ensures Lower(a[i]) == Lower(b[i]) {
        assert SameLetter(a[i], b[i]);
      }
    }
  }

  predicate Named(fields: seq<Field>, i: nat, word: string) {
    i < |fields| && Spelled(fields[i].name, word)
  }

  ghost predicate AtMostOnce(fields: seq<Field>, word: string) {
    forall i: nat, j: nat :: Named(fields, i, word) && Named(fields, j, word) ==> i == j
  }

  lemma TwiceExactly(parts: seq<Part>, word: string)
    ensures Twice(Names(parts), word) <==> !AtMostOnce(Fields(parts), word)
  {
    hide Fold, Spelled;
    var names, fields := Names(parts), Fields(parts);
    forall i: nat | i < |parts| ensures Fold(names[i], word) <==> Named(fields, i, word) {
      FoldExactly(names[i], word);
    }
  }

  lemma {:induction false} NoneLeft(fields: seq<Field>)
    ensures forall i: nat :: !Named(NonToken(fields), i, "Token")
    ensures (forall i: nat :: !Named(fields, i, "Token")) ==> NonToken(fields) == fields
    decreases |fields|
  {
    hide Fold, Spelled;
    if fields != [] {
      NoneLeft(fields[1..]);
      FoldExactly(fields[0].name, "Token");
      var rest := NonToken(fields[1..]);
      if !Fold(fields[0].name, "Token") {
        forall i: nat ensures !Named([fields[0]] + rest, i, "Token") {
          assert i == 0 || !Named(rest, i - 1, "Token");
        }
        if forall i: nat :: !Named(fields, i, "Token") {
          forall i: nat ensures !Named(fields[1..], i, "Token") {
            assert !Named(fields, i + 1, "Token");
          }
        }
      } else {
        assert Named(fields, 0, "Token");
      }
    }
  }

  /** Without its only token, a list is what was before it and what was after it. */
  lemma {:induction false} OneLeft(fields: seq<Field>, t: nat)
    requires Named(fields, t, "Token") && AtMostOnce(fields, "Token")
    ensures NonToken(fields) == fields[..t] + fields[t + 1..]
    decreases t
  {
    hide Fold, Spelled;
    FoldExactly(fields[0].name, "Token");
    if t == 0 {
      forall i: nat ensures !Named(fields[1..], i, "Token") {
        var j := i + 1;
        assert !Named(fields, j, "Token");
      }
      NoneLeft(fields[1..]);
      assert fields[..0] + fields[1..] == fields[1..];
    } else {
      assert !Named(fields, 0, "Token");
      assert AtMostOnce(fields[1..], "Token") by {
        forall i: nat, j: nat | Named(fields[1..], i, "Token") && Named(fields[1..], j, "Token") ensures i == j {
          assert Named(fields, i + 1, "Token") && Named(fields, j + 1, "Token");
        }
      }
      assert Named(fields[1..], t - 1, "Token");
      OneLeft(fields[1..], t - 1);
      assert [fields[0]] + (fields[1..][..t - 1] + fields[1..][t..]) == fields[..t] + fields[t + 1..];
    }
  }

  ghost predicate Without(fields: seq<Field>, out: seq<Field>) {
    || (out == fields && forall i: nat :: !Named(fields, i, "Token"))
    || exists t: nat :: Named(fields, t, "Token") && out == fields[..t] + fields[t + 1..]
  }

  lemma WithoutToken(fields: seq<Field>)
    requires AtMostOnce(fields, "Token")
    ensures Without(fields, NonToken(fields))
  {
    hide Spelled, NonToken;
    NoneLeft(fields);
    if t: nat :| Named(fields, t, "Token") {
      OneLeft(fields, t);
    }
  }

  // ---------- reading by letters ----------

  predicate BlankChar(c: char) {
    c == ' ' || c == '\t'
  }

  predicate Blank(s: string) {
    forall i :: 0 <= i < |s| ==> BlankChar(s[i])
  }

  predicate WordChar(c: char) {
    'a' <= c <= 'z' || 'A' <= c <= 'Z' || '0' <= c <= '9' || c == '-' || c == '_'
  }

  predicate Word(s: string) {
    s != "" && forall i :: 0 <= i < |s| ==> WordChar(s[i])
  }

  /** name = "content" with blanks anywhere between; the content has no quotes, backslashes or control characters. */
  predicate PartOk(p: Part) {
    && Blank(p.before) && Blank(p.gap) && Blank(p.pad) && Blank(p.after) && Word(p.name)
    && forall i :: 0 <= i < |p.content| ==>
         p.content[i] >= ' ' && p.content[i] != '"' && p.content[i] != '\\' && p.content[i] != 0x7f as char
  }

  lemma PartExactly(p: Part)
    ensures ValidPart(p) <==> PartOk(p)
  {
  }

  predicate SchemeOk(s: string) {
    Word(s) && (Spelled(s, "MediaBrowser") || Spelled(s, "Emby"))
  }

  lemma SchemeExactly(s: string)
    ensures All(s, IsToken) && s != "" && KnownScheme(s) <==> SchemeOk(s)
  {
    hide Fold, Spelled;
    FoldExactly(s, "MediaBrowser");
    FoldExactly(s, "Emby");
  }

  lemma BlankExactly(s: string)
    ensures All(s, IsSpace) <==> Blank(s)
  {
  }

  /** One of the two schemes and attributes after it. */
  ghost predicate ListedAs(value: string, lead: string, scheme: string, gap: string, parts: seq<Part>) {
    && value == lead + scheme + gap + PrintAll(parts)
    && Blank(lead) && SchemeOk(scheme) && gap != "" && Blank(gap)
    && parts != [] && parts[0].before == "" && forall i :: 0 <= i < |parts| ==> PartOk(parts[i])
  }

  /** One of the two schemes and nothing but blanks around it. */
  ghost predicate BareAs(value: string, lead: string, scheme: string, gap: string) {
    value == lead + scheme + gap && Blank(lead) && SchemeOk(scheme) && Blank(gap)
  }

  /** n blanks, and then no word. */
  predicate NoWordAfter(value: string, n: nat) {
    n <= |value| && Blank(value[..n]) && (n == |value| || !(BlankChar(value[n]) || WordChar(value[n])))
  }

  ghost predicate WithoutScheme(value: string) {
    exists n: nat :: NoWordAfter(value, n)
  }

  lemma HeadedExactly(lead: string, scheme: string, gap: string)
    ensures Headed(lead, scheme, gap) <==> Blank(lead) && SchemeOk(scheme) && Blank(gap)
  {
    hide Blank, SchemeOk, IsSpace, IsToken, KnownScheme;
    BlankExactly(lead);
    BlankExactly(gap);
    SchemeExactly(scheme);
  }

  lemma PartsExactly(parts: seq<Part>)
    ensures ValidParts(parts) <==> parts != [] && forall i :: 0 <= i < |parts| ==> PartOk(parts[i])
  {
    hide ValidPart, PartOk;
    forall i | 0 <= i < |parts| ensures ValidPart(parts[i]) <==> PartOk(parts[i]) {
      PartExactly(parts[i]);
    }
  }

  /** A value is read as a list exactly if it is written out as one. */
  lemma ListedExactly(value: string, lead: string, scheme: string, gap: string, parts: seq<Part>)
    ensures Read(value) == Listed(lead, scheme, gap, parts) <==> ListedAs(value, lead, scheme, gap, parts)
  {
    hide Read, PrintAll, ValidParts, Headed, Blank, SchemeOk, PartOk;
    ReadSound(value);
    HeadedExactly(lead, scheme, gap);
    PartsExactly(parts);
    if ListedAs(value, lead, scheme, gap, parts) {
      ReadListed(lead, scheme, gap, parts);
    }
  }

  lemma BareExactly(value: string, lead: string, scheme: string, gap: string)
    ensures Read(value) == Bare(lead, scheme, gap) <==> BareAs(value, lead, scheme, gap)
  {
    hide Read, PrintAll, ValidParts, Headed, Blank, SchemeOk;
    ReadSound(value);
    HeadedExactly(lead, scheme, gap);
    if BareAs(value, lead, scheme, gap) {
      assert Stops("", IsSpace);
      assert value == lead + scheme + gap + "";
      ReadPieces(lead, scheme, gap, "");
    }
  }

  lemma NoSchemeExactly(value: string)
    ensures Read(value).NoScheme? <==> WithoutScheme(value)
  {
    hide All, Blank, BlankChar, WordChar, Lead;
    var n := Lead(value, IsSpace);
    LeadParts(value, IsSpace);
    BlankExactly(value[..n]);
    ReadWord(value);
    CharsExactly();
    if Read(value).NoScheme? {
      assert NoWordAfter(value, n);
    }
    forall m: nat | NoWordAfter(value, m) ensures m == n {
      BlankExactly(value[..m]);
      assert value == value[..m] + value[m..];
      LeadIs(value[..m], value[m..], IsSpace);
    }
  }

  lemma CharsExactly()
    ensures forall c: char :: (IsSpace(c) <==> BlankChar(c)) && (IsToken(c) <==> WordChar(c))
  {
  }

  lemma ReadWord(value: string)
    ensures Read(value).NoScheme? <==> Stops(value[Lead(value, IsSpace)..], IsToken)
  {
  }

  /** The attributes of a list, or none. */
  ghost predicate Forwardable(value: string, fields: seq<Field>) {
    || (fields == [] && (WithoutScheme(value) || exists lead, scheme, gap :: BareAs(value, lead, scheme, gap)))
    || exists lead, scheme, gap, parts ::
         ListedAs(value, lead, scheme, gap, parts) && AtMostOnce(Fields(parts), "Token") && fields == Fields(parts)
  }

  /**
   A value is forwarded exactly when it has no scheme, or one of the two schemes in any letter
   case, alone or with a list that spells token at most once, in whatever case; what is
   forwarded holds no attribute spelled so, and every other one in order.
   */
  lemma StripByLetters(value: string)
    ensures var (w, safe) := Strip(value); var r, q := Read(value), Read(w);
      && (safe <==> Forwardable(value, FieldsOf(r)))
      && (safe ==> Without(FieldsOf(r), FieldsOf(q)) && forall i: nat :: !Named(FieldsOf(q), i, "Token"))
  {
    hide Read, Strip, Twice, Fold, Spelled, AtMostOnce, NonToken, Without, Fields, ListedAs, BareAs, WithoutScheme;
    var r := Read(value);
    StripMeaning(value);
    NoneLeft(FieldsOf(r));
    ForwardableExactly(value);
    if Strip(value).1 {
      SafeOnce(value);
      WithoutToken(FieldsOf(r));
    }
  }

  lemma SafeOnce(value: string)
    requires Strip(value).1
    ensures AtMostOnce(FieldsOf(Read(value)), "Token")
  {
    hide Read, Strip, Fold, Spelled, AtMostOnce, Fields, Twice;
    StripMeaning(value);
    NoFields();
    if Read(value).Listed? {
      TwiceExactly(Read(value).parts, "Token");
    }
  }

  lemma ForwardableExactly(value: string)
    ensures var r := Read(value);
      Forwardable(value, FieldsOf(r)) <==> r.NoScheme? || r.Bare? || (r.Listed? && !Twice(Names(r.parts), "Token"))
  {
    hide Read, Twice, Fold, Spelled, AtMostOnce, Fields, ListedAs, BareAs, WithoutScheme;
    var r := Read(value);
    NoSchemeExactly(value);
    if r.Bare? {
      BareExactly(value, r.lead, r.scheme, r.gap);
    } else if r.Listed? {
      ListedExactly(value, r.lead, r.scheme, r.gap, r.parts);
      TwiceExactly(r.parts, "Token");
    }
    forall lead, scheme, gap | BareAs(value, lead, scheme, gap) ensures r.Bare? {
      BareExactly(value, lead, scheme, gap);
    }
    forall lead, scheme, gap, parts | ListedAs(value, lead, scheme, gap, parts)
      ensures r == Listed(lead, scheme, gap, parts) && (AtMostOnce(Fields(parts), "Token") <==> !Twice(Names(parts), "Token")) {
      ListedExactly(value, lead, scheme, gap, parts);
      TwiceExactly(parts, "Token");
    }
  }

  lemma NoFields()
    ensures AtMostOnce([], "Token")
  {
  }

  // ---------- rewriting ----------

  /** A field of the result: its bytes but for the content of one spelled client or version. */
  predicate Retagged(f: Field, out: Field, profile: Profile) {
    && out.opening == f.opening && out.name == f.name
    && out.content == if Spelled(f.name, "Client") then profile.client
                      else if Spelled(f.name, "Version") then profile.version
                      else f.content
  }

  predicate IsAdded(f: Field, name: string, content: string) {
    f.name == name && f.opening == name + "=\"" && f.content == content
  }

  /** The old fields in order, then Client and Version where they were missing. */
  ghost predicate Replaced(fields: seq<Field>, out: seq<Field>, profile: Profile) {
    var client := forall i: nat :: !Named(fields, i, "Client");
    var version := forall i: nat :: !Named(fields, i, "Version");
    && |out| == |fields| + (if client then 1 else 0) + (if version then 1 else 0)
    && (forall i :: 0 <= i < |fields| ==> Retagged(fields[i], out[i], profile))
    && (client ==> IsAdded(out[|fields|], "Client", profile.client))
    && (version ==> IsAdded(out[|out| - 1], "Version", profile.version))
  }

  lemma HasExactly(fields: seq<Field>, word: string)
    ensures Has(fields, word) <==> exists i: nat :: Named(fields, i, word)
  {
    hide Fold, Spelled;
    forall i: nat | i < |fields| ensures Fold(fields[i].name, word) <==> Named(fields, i, word) {
      FoldExactly(fields[i].name, word);
    }
  }

  lemma RetagExactly(f: Field, profile: Profile)
    ensures Retagged(f, Retag(f, profile), profile)
  {
    hide Fold, Spelled;
    FoldExactly(f.name, "Client");
    FoldExactly(f.name, "Version");
  }

  lemma UpdatedExactly(fields: seq<Field>, profile: Profile)
    ensures Replaced(fields, Updated(fields, profile), profile)
  {
    hide Fold, Spelled, Has, Retag, Retagged;
    HasExactly(fields, "Client");
    HasExactly(fields, "Version");
    var out := Updated(fields, profile);
    forall i | 0 <= i < |fields| ensures Retagged(fields[i], out[i], profile) {
      RetagExactly(fields[i], profile);
      assert out[i] == RetagAll(fields, profile)[i];
    }
  }

  /** A rewritten value reads as the old attributes with Client and Version replaced, or added if missing. */
  lemma RewriteByLetters(value: string, profile: Profile)
    requires SafeProfile(profile)
    ensures var w := Rewrite(value, profile); var r, q := Read(value), Read(w);
      var once := r.Bare? || (r.Listed? && AtMostOnce(FieldsOf(r), "Client") && AtMostOnce(FieldsOf(r), "Version"));
      && (once ==> q.Listed? && q.lead == r.lead && q.scheme == r.scheme && Replaced(FieldsOf(r), FieldsOf(q), profile))
      && (!once ==> w == value)
  {
    hide Read, Rewrite, Twice, Fold, Spelled, AtMostOnce, Replaced, Updated, SafeProfile;
    var r := Read(value);
    RewriteMeaning(value, profile);
    UpdatedExactly(FieldsOf(r), profile);
    if r.Listed? {
      TwiceExactly(r.parts, "Client");
      TwiceExactly(r.parts, "Version");
    }
  }
}
