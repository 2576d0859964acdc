/** The expressions of a template as they are written, and the numbers that a player may put in for them. */
module DashNumbers {
  import opened Wrappers
  import opened DashStrings
  import opened DashValues

  // ---------- expressions ----------

  /** A name, alone or followed by a width without leading zeros and a letter for the base. */
  predicate Written(e: string, x: Expression) {
    && x.name in {"RepresentationID", "Number", "SubNumber", "Bandwidth", "Time"}
    && ((e == x.name && x.width == 0 && x.verb == 'd')
        || (1 <= x.width <= 99 && x.verb in {'d', 'i', 'o', 'u', 'x', 'X'} && e == x.name + ("%0" + Itoa(x.width) + [x.verb])))
  }

  lemma NameHasNoPercent(s: string)
    requires Name(s)
    ensures s != "" && '%' !in s
  {
  }

  lemma PercentAt(name: string, rest: string)
    requires '%' !in name && (rest == "" || rest[0] == '%')
    ensures Find("%", name + rest) == if rest == "" then -1 else |name|
  {
    var s := name + rest;
    Found("%", s);
    forall p | OccursAt("%", s, p) ensures p >= |name| && rest != "" {
      assert s[p..p + 1][0] == '%';
    }
    if rest != "" {
      assert s[|name|] == '%';
      assert s[|name|..|name| + 1] == "%";
      assert OccursAt("%", s, |name|);
    }
  }

  lemma TwoDigits(w: nat)
    requires 1 <= w <= 99
    ensures var t := Itoa(w);
      if w < 10 then |t| == 1 && t[0] as int == '0' as int + w
      else |t| == 2 && t[0] as int == '0' as int + w / 10 && t[1] as int == '0' as int + w % 10
  {
    if w >= 10 {
      assert Itoa(w / 10) == [('0' as int + w / 10) as char];
    }
  }

  lemma TagExactly(tag: string, w: nat, verb: char)
    requires 1 <= w <= 99
    ensures FormatTag(tag) && TagWidth(tag) == w && tag[|tag| - 1] == verb
      <==> tag == "%0" + Itoa(w) + [verb] && verb in {'d', 'i', 'o', 'u', 'x', 'X'}
  {
    TwoDigits(w);
    var t := Itoa(w);
    if FormatTag(tag) && TagWidth(tag) == w && tag[|tag| - 1] == verb {
      TagNumber(tag);
      if |tag| == 4 {
        assert tag == [tag[0], tag[1], tag[2], tag[3]];
        assert t == [tag[2]];
      } else {
        assert tag == [tag[0], tag[1], tag[2], tag[3], tag[4]];
        assert t == [tag[2], tag[3]];
      }
    }
  }

  lemma TagNumber(tag: string)
    requires FormatTag(tag)
    ensures 1 <= TagWidth(tag) <= 99 && (TagWidth(tag) >= 10 <==> |tag| == 5)
    ensures |tag| == 5 ==> TagWidth(tag) / 10 == DigitOf(tag[2]) && TagWidth(tag) % 10 == DigitOf(tag[3])
  {
  }

  /** An expression is read exactly as it is written. */
  lemma ExpressionExactly(e: string, x: Expression)
    ensures ParseExpression(e) == Some(x) <==> Written(e, x)
  {
    hide FormatTag, TagWidth, Itoa, Find;
    if Written(e, x) {
      NameHasNoPercent(x.name);
      var rest := if e == x.name && x.width == 0 then "" else "%0" + Itoa(x.width) + [x.verb];
      assert e == x.name + rest;
      PercentAt(x.name, rest);
      if rest != "" {
        TagExactly(rest, x.width, x.verb);
        assert e[..|x.name|] == x.name && e[|x.name|..] == rest;
      }
    }
    if ParseExpression(e) == Some(x) {
      var p := Find("%", e);
      if p >= 0 {
        TagNumber(e[p..]);
        TagExactly(e[p..], x.width, x.verb);
        assert e == e[..p] + e[p..];
      }
    }
  }

  /** Supported are widths up to twenty, and the id of a Representation without any. */
  lemma IdentifierExactly(e: string, id: string)
    ensures Identifier(e) == Some(id)
      <==> exists x :: Written(e, x) && x.name == id && x.width <= 20 && (id == "RepresentationID" ==> x.width == 0)
  {
    hide ParseExpression, Written;
    if ParseExpression(e).Some? {
      ExpressionExactly(e, ParseExpression(e).value);
    }
    forall x | Written(e, x) ensures ParseExpression(e) == Some(x) {
      ExpressionExactly(e, x);
    }
  }

  // ---------- numbers ----------

  /** Of the hexadecimal digits only those in the letter's own case. */
  predicate InCase(v: string, verb: char) {
    && (verb == 'x' ==> forall i :: 0 <= i < |v| ==> !('A' <= v[i] <= 'F'))
    && (verb == 'X' ==> forall i :: 0 <= i < |v| ==> !('a' <= v[i] <= 'f'))
  }

  /** A numeral of the base that the letter stands for; in its case. */
  predicate Numeral(v: string, verb: char, n: nat) {
    v != ""
    && (verb == 'o' ==> DigitsIn(v, 8) && ValueOf(v, 8) == n)
    && (verb in {'d', 'i', 'u'} ==> DigitsIn(v, 10) && ValueOf(v, 10) == n)
    && (verb in {'x', 'X'} ==> DigitsIn(v, 16) && ValueOf(v, 16) == n)
    && InCase(v, verb)
  }

  lemma LexicalExactly(verb: char, v: string)
    requires verb in {'d', 'i', 'o', 'u', 'x', 'X'} && 1 <= |v| <= 20
    ensures Lexical(verb, v) <==> DigitsIn(v, Base(verb)) && InCase(v, verb)
  {
  }

  ghost predicate Accepted(e: string, v: string, n: nat, x: Expression) {
    && Written(e, x) && x.name in {"Number", "SubNumber", "Time"} && x.width <= 20
    && x.width <= |v| <= 20 && Numeral(v, x.verb, n) && n < 0x1_0000_0000_0000_0000
  }

  /**
   A value is accepted for an expression, and read as a number, exactly if it is a numeral
   in the expression's base and letter case, has at least its width and at most twenty
   digits, and the number has 64 bits.
   */
  lemma ValueExactly(e: string, v: string, n: nat)
    ensures ParsedValue(e, v) == Some(n) <==> exists x :: Accepted(e, v, n, x)
  {
    hide ParseExpression, Written, Lexical, DigitsIn, ValueOf;
    forall x: Expression ensures ParseExpression(e) == Some(x) <==> Written(e, x) {
      ExpressionExactly(e, x);
    }
    if ParseExpression(e).Some? {
      var x := ParseExpression(e).value;
      WrittenVerb(e, x);
      if 1 <= |v| <= 20 {
        LexicalExactly(x.verb, v);
      }
      LexicalLength(x.verb, v);
      assert ParsedValue(e, v) == Some(n) <==> Accepted(e, v, n, x) by { OneExpression(e, v, n, x); }
      assert forall y :: Accepted(e, v, n, y) ==> y == x;
    }
  }

  lemma WrittenVerb(e: string, x: Expression)
    requires Written(e, x)
    ensures x.verb in {'d', 'i', 'o', 'u', 'x', 'X'}
    ensures x.name in {"RepresentationID", "Number", "SubNumber", "Bandwidth", "Time"}
  {
  }

  lemma LexicalLength(verb: char, v: string)
    ensures Lexical(verb, v) ==> 1 <= |v| <= 20
  {
  }

  lemma OneExpression(e: string, v: string, n: nat, x: Expression)
    requires ParseExpression(e) == Some(x) && Written(e, x)
    requires x.verb in {'d', 'i', 'o', 'u', 'x', 'X'} && x.name in {"RepresentationID", "Number", "SubNumber", "Bandwidth", "Time"}
    requires Lexical(x.verb, v) ==> 1 <= |v| <= 20
    requires 1 <= |v| <= 20 ==> (Lexical(x.verb, v) <==> DigitsIn(v, Base(x.verb)) && InCase(v, x.verb))
    ensures ParsedValue(e, v) == Some(n) <==> Accepted(e, v, n, x)
  {
    hide ParseExpression, Written, Lexical, DigitsIn, ValueOf;
  }

  lemma {:induction false} NoLeadingZero(n: nat, base: nat, upper: bool)
    requires 2 <= base <= 16 && 0 < n
    ensures FormatUint(n, base, upper)[0] != '0'
    decreases n
  {
    hide Quotient, Remainder;
    if n >= base {
      var q := Quotient(n, base);
      Divided(n, base);
      assert q > 0;
      NoLeadingZero(q, base, upper);
    }
  }

  /**
   A number is formatted as a numeral for itself in the base of the letter, at least as wide
   as the expression asks, and with a leading zero only to become that wide.
   */
  lemma FormattedExactly(x: Expression, n: nat)
    requires x.verb in {'d', 'i', 'o', 'u', 'x', 'X'}
    ensures var s := FormatNumber(x, n);
      Numeral(s, x.verb, n) && x.width <= |s| && (|s| > x.width && |s| > 1 ==> s[0] != '0')
  {
    hide FormatUint, ValueOf;
    NumberReadsBack(x, n);
    FormatsSome(n, Base(x.verb), x.verb == 'X');
    if n > 0 {
      NoLeadingZero(n, Base(x.verb), x.verb == 'X');
    }
  }

  lemma FormatsSome(n: nat, base: nat, upper: bool)
    requires 2 <= base <= 16
    ensures n == 0 ==> |FormatUint(n, base, upper)| == 1
  {
  }
}
