/**
 The expressions of a DASH template and the values that stand for them: the
 grammar of section 5.3.9.4.4 of ISO/IEC 23009-1 as the proxy reads it, the format
 tags, and the checks a substituted value has to pass.
 */
module DashValues {
  import opened Wrappers
  import opened DashStrings

  const MAX_TARGET := 4096
  const UINT64_LIMIT := 0x1_0000_0000_0000_0000

  // ---------- expressions ----------

  /** width 0 stands for an expression without a format tag. */
  datatype Expression = Expression(name: string, width: nat, verb: char)

  predicate Name(s: string) {
    s == "RepresentationID" || s == "Number" || s == "SubNumber" || s == "Bandwidth" || s == "Time"
  }

  predicate Verb(c: char) {
    c == 'd' || c == 'i' || c == 'o' || c == 'u' || c == 'x' || c == 'X'
  }

  function DigitOf(c: char): nat
    requires Digit(c)
  {
    c as int - '0' as int
  }

  predicate FormatTag(tag: string) {
    && (|tag| == 4 || |tag| == 5)
    && tag[0] == '%' && tag[1] == '0' && tag[2] != '0' && Digit(tag[2])
    && (|tag| == 5 ==> Digit(tag[3]))
    && Verb(tag[|tag| - 1])
  }

  function TagWidth(tag: string): nat
    requires FormatTag(tag)
  {
    if |tag| == 4 then DigitOf(tag[2]) else 10 * DigitOf(tag[2]) + DigitOf(tag[3])
  }

  function ParseExpression(e: string): Option<Expression> {
    var p := Find("%", e);
    if p < 0 then
      if Name(e) then Some(Expression(e, 0, 'd')) else None
    else if Name(e[..p]) && FormatTag(e[p..]) then
      Some(Expression(e[..p], TagWidth(e[p..]), e[|e| - 1]))
    else None
  }

  /** The identifier of an expression the proxy supports. */
  function Identifier(e: string): Option<string> {
    match ParseExpression(e)
    case None => None
    case Some(x) =>
      if (x.name == "RepresentationID" && x.width != 0) || x.width > 20 then None else Some(x.name)
  }

  /** Expressions whose value is known when the template is sealed. */
  predicate IsFixed(e: string) {
    Identifier(e) == Some("RepresentationID") || Identifier(e) == Some("Bandwidth")
  }

  predicate IsVariable(e: string) {
    Identifier(e).Some? && !IsFixed(e)
  }

  predicate Quiet(c: char) {
    c != '$' && c != '_' && c != '-' && c != '/'
  }

  lemma NameQuiet(s: string)
    requires Name(s)
    ensures s != "" && forall i :: 0 <= i < |s| ==> Quiet(s[i])
  {
  }

  /** No supported expression contains a dollar sign, a slash or a marker's punctuation. */
  lemma ExpressionQuiet(e: string)
    requires ParseExpression(e).Some?
    ensures e != "" && forall i :: 0 <= i < |e| ==> Quiet(e[i])
  {
    var p := Find("%", e);
    if p < 0 {
      NameQuiet(e);
    } else {
      NameQuiet(e[..p]);
      forall i | 0 <= i < |e| ensures Quiet(e[i]) {
        if i < p {
          assert e[i] == e[..p][i];
        } else {
          assert e[i] == e[p..][i - p];
        }
      }
    }
  }

  // ---------- numbers ----------

  function Base(verb: char): (b: nat)
    ensures 8 <= b <= 16
  {
    if verb == 'o' then 8 else if verb == 'x' || verb == 'X' then 16 else 10
  }

  predicate HexDigit(c: char) {
    Digit(c) || 'a' <= c <= 'f' || 'A' <= c <= 'F'
  }

  function HexValue(c: char): (v: nat)
    requires HexDigit(c)
    ensures v < 16
  {
    if Digit(c) then c as int - '0' as int
    else if 'a' <= c <= 'f' then c as int - 'a' as int + 10
    else c as int - 'A' as int + 10
  }

  predicate DigitsIn(s: string, base: nat) {
    forall i :: 0 <= i < |s| ==> HexDigit(s[i]) && HexValue(s[i]) < base
  }

  function ValueOf(s: string, base: nat): nat
    requires DigitsIn(s, base)
  {
    if s == "" then 0 else ValueOf(s[..|s| - 1], base) * base + HexValue(s[|s| - 1])
  }

  function ParseUint(s: string, base: nat): Option<nat> {
    if s != "" && DigitsIn(s, base) && ValueOf(s, base) < UINT64_LIMIT then Some(ValueOf(s, base)) else None
  }

  function HexChar(v: nat, upper: bool): (c: char)
    requires v < 16
    ensures HexDigit(c) && HexValue(c) == v
    ensures v < 10 ==> Digit(c)
    ensures 'A' <= c <= 'F' ==> upper
    ensures 'a' <= c <= 'f' ==> !upper
  {
    if v < 10 then ('0' as int + v) as char
    else if upper then ('A' as int + (v - 10)) as char
    else ('a' as int + (v - 10)) as char
  }

  function Quotient(n: nat, base: nat): (q: nat)
    requires 2 <= base
    ensures n > 0 ==> q < n
  {
    var q := n / base;
    assert base * q <= n;
    Doubles(base, q);
    q
  }

  lemma Doubles(base: nat, q: nat)
    requires 2 <= base
    ensures 2 * q <= base * q
  {
    assert 0 <= (base - 2) * q;
  }

  function Remainder(n: nat, base: nat): (r: nat)
    requires 2 <= base
    ensures r < base
  {
    n % base
  }

  lemma Divided(n: nat, base: nat)
    requires 2 <= base
    ensures n == Quotient(n, base) * base + Remainder(n, base)
  {
  }

  function FormatUint(n: nat, base: nat, upper: bool): (s: string)
    requires 2 <= base <= 16
    ensures s != ""
  {
    if n < base then [HexChar(n, upper)]
    else FormatUint(Quotient(n, base), base, upper) + [HexChar(Remainder(n, base), upper)]
  }

  function Padded(s: string, width: nat): (p: string)
    ensures |p| == if |s| < width then width else |s|
  {
    if |s| < width then seq(width - |s|, i => '0') + s else s
  }

  /** A number as the format tag of the expression asks for it. */
  function FormatNumber(x: Expression, n: nat): string {
    Padded(FormatUint(n, Base(x.verb), x.verb == 'X'), x.width)
  }

  function Pow(b: nat, e: nat): nat {
    if e == 0 then 1 else b * Pow(b, e - 1)
  }

  lemma {:induction false} FormatLength(n: nat, base: nat, upper: bool, k: nat)
    requires 2 <= base <= 16 && 0 < k
    ensures |FormatUint(n, base, upper)| <= k <==> n < Pow(base, k)
  {
    hide Quotient, Remainder, HexChar, Pow;
    if n < base {
      PowGrows(base, k);
    } else {
      var q := Quotient(n, base);
      assert |FormatUint(n, base, upper)| == |FormatUint(q, base, upper)| + 1;
      if k == 1 {
        PowOne(base);
      } else {
        FormatLength(q, base, upper, k - 1);
        Divided(n, base);
        QuotientBelow(n, q, Remainder(n, base), base, k);
      }
    }
  }

  lemma PowOne(b: nat)
    ensures Pow(b, 1) == b
  {
  }

  lemma QuotientBelow(n: nat, q: nat, r: nat, base: nat, k: nat)
    requires n == q * base + r && r < base && 0 < k
    ensures q < Pow(base, k - 1) <==> n < Pow(base, k)
  {
    var m := Pow(base, k - 1);
    assert Pow(base, k) == base * m;
    if q < m {
      assert (q + 1) * base <= m * base;
    } else {
      assert m * base <= q * base;
    }
  }

  lemma {:induction false} PowGrows(b: nat, k: nat)
    requires 2 <= b && 0 < k
    ensures b <= Pow(b, k)
  {
    if k == 1 {
      assert Pow(b, 1) == b;
    } else {
      PowGrows(b, k - 1);
      assert b * Pow(b, k - 1) >= Pow(b, k - 1);
    }
  }

  lemma {:induction false} FormatDigits(n: nat, base: nat, upper: bool)
    requires 2 <= base <= 16
    ensures DigitsIn(FormatUint(n, base, upper), base)
    ensures ValueOf(FormatUint(n, base, upper), base) == n
  {
    hide Quotient, Remainder, HexChar, ValueOf, DigitsIn;
    if n < base {
      DigitAppended("", base, HexChar(n, upper));
      assert "" + [HexChar(n, upper)] == [HexChar(n, upper)];
    } else {
      var q := Quotient(n, base);
      FormatDigits(q, base, upper);
      DigitAppended(FormatUint(q, base, upper), base, HexChar(Remainder(n, base), upper));
      Divided(n, base);
    }
  }

  lemma DigitAppended(s: string, base: nat, c: char)
    requires (s == "" || DigitsIn(s, base)) && HexDigit(c) && HexValue(c) < base
    ensures DigitsIn(s + [c], base) && DigitsIn(s, base)
    ensures ValueOf(s + [c], base) == (if s == "" then 0 else ValueOf(s, base) * base) + HexValue(c)
  {
    assert (s + [c])[..|s|] == s;
  }

  predicate CasedAs(s: string, upper: bool) {
    forall i :: 0 <= i < |s| ==> !(if upper then 'a' <= s[i] <= 'f' else 'A' <= s[i] <= 'F')
  }

  lemma {:induction false} FormatCase(n: nat, base: nat, upper: bool)
    requires 2 <= base <= 16
    ensures CasedAs(FormatUint(n, base, upper), upper)
  {
    hide Quotient, Remainder, HexChar;
    if n >= base {
      FormatCase(Quotient(n, base), base, upper);
    }
  }

  lemma {:induction false} PaddedValue(s: string, base: nat, zeros: string)
    requires 2 <= base && DigitsIn(s, base)
    requires forall i :: 0 <= i < |zeros| ==> zeros[i] == '0'
    ensures DigitsIn(zeros + s, base) && ValueOf(zeros + s, base) == ValueOf(s, base)
  {
    var t := zeros + s;
    if s != "" {
      PaddedValue(s[..|s| - 1], base, zeros);
      assert t[..|t| - 1] == zeros + s[..|s| - 1];
    } else if zeros != "" {
      PaddedValue(s, base, zeros[..|zeros| - 1]);
      assert t[..|t| - 1] == zeros[..|zeros| - 1] + s;
    } else {
      assert t == "";
    }
  }

  lemma NumberReadsBack(x: Expression, n: nat)
    ensures DigitsIn(FormatNumber(x, n), Base(x.verb))
    ensures ValueOf(FormatNumber(x, n), Base(x.verb)) == n
    ensures CasedAs(FormatNumber(x, n), x.verb == 'X')
  {
    var s := FormatUint(n, Base(x.verb), x.verb == 'X');
    FormatDigits(n, Base(x.verb), x.verb == 'X');
    FormatCase(n, Base(x.verb), x.verb == 'X');
    if |s| < x.width {
      PaddedValue(s, Base(x.verb), seq(x.width - |s|, i => '0'));
    }
  }

  // ---------- the checks of a substituted value ----------

  predicate Lexical(verb: char, s: string) {
    && 1 <= |s| <= 20
    && (verb == 'o' ==> forall i :: 0 <= i < |s| ==> '0' <= s[i] <= '7')
    && (verb == 'x' ==> forall i :: 0 <= i < |s| ==> Digit(s[i]) || 'a' <= s[i] <= 'f')
    && (verb == 'X' ==> forall i :: 0 <= i < |s| ==> Digit(s[i]) || 'A' <= s[i] <= 'F')
    && (verb != 'o' && verb != 'x' && verb != 'X' ==> forall i :: 0 <= i < |s| ==> Digit(s[i]))
  }

  predicate ValidValue(e: string, value: string) {
    && IsVariable(e)
    && var x := ParseExpression(e).value;
      && x.width <= |value|
      && Lexical(x.verb, value)
      && ParseUint(value, Base(x.verb)).Some?
  }

  function ParsedValue(e: string, value: string): Option<nat> {
    if ValidValue(e, value) then ParseUint(value, Base(ParseExpression(e).value.verb)) else None
  }

  lemma ValueQuiet(e: string, value: string)
    requires ValidValue(e, value)
    ensures value != "" && forall i :: 0 <= i < |value| ==> Quiet(value[i])
  {
  }

  /**
   A 64-bit number written in the format of an expression passes the checks and is
   read back, except an octal one with more than twenty digits.
   */
  lemma FormattedNumberAccepted(e: string, n: nat)
    requires IsVariable(e) && n < UINT64_LIMIT
    ensures var x := ParseExpression(e).value;
      ParsedValue(e, FormatNumber(x, n)) == if x.verb == 'o' && n >= Pow(8, 20) then None else Some(n)
  {
    hide FormatUint, FormatNumber, Pow, ValueOf, ParseExpression;
    var x := ParseExpression(e).value;
    var value := FormatNumber(x, n);
    NumberReadsBack(x, n);
    NumberLength(x, n);
    if |value| <= 20 {
      LexicalDigits(x.verb, value);
    }
  }

  lemma LexicalDigits(verb: char, s: string)
    requires DigitsIn(s, Base(verb)) && CasedAs(s, verb == 'X') && 1 <= |s| <= 20
    ensures Lexical(verb, s)
  {
  }

  lemma NumberLength(x: Expression, n: nat)
    requires n < UINT64_LIMIT && x.width <= 20
    ensures x.width <= |FormatNumber(x, n)| && 1 <= |FormatNumber(x, n)|
    ensures |FormatNumber(x, n)| <= 20 <==> !(x.verb == 'o' && n >= Pow(8, 20))
    ensures |FormatNumber(x, n)| <= 22
  {
    hide FormatUint, Pow;
    FormatLength(n, Base(x.verb), x.verb == 'X', 20);
    FormatLength(n, Base(x.verb), x.verb == 'X', 22);
    WordPowers();
  }

  lemma WordPowers()
    ensures UINT64_LIMIT < Pow(10, 20) <= Pow(10, 22)
    ensures UINT64_LIMIT < Pow(16, 20) <= Pow(16, 22)
    ensures UINT64_LIMIT < Pow(8, 22)
  {
    assert Pow(10, 5) == 100000 && Pow(16, 5) == 0x10_0000 && Pow(8, 5) == 0x8000;
    assert Pow(10, 2) == 100 && Pow(16, 2) == 256 && Pow(8, 2) == 64;
    PowTwenty(10);
    PowTwenty(16);
    PowTwenty(8);
  }

  lemma PowTwenty(b: nat)
    ensures var p := Pow(b, 5); Pow(b, 20) == p * p * (p * p) && Pow(b, 22) == Pow(b, 20) * Pow(b, 2)
  {
    hide Pow;
    PowSum(b, 5, 5);
    PowSum(b, 10, 10);
    PowSum(b, 20, 2);
  }

  lemma {:induction false} PowSum(b: nat, m: nat, n: nat)
    ensures Pow(b, m + n) == Pow(b, m) * Pow(b, n)
  {
    if m > 0 {
      PowSum(b, m - 1, n);
      Associate(b, Pow(b, m - 1), Pow(b, n));
    }
  }

  lemma Associate(a: nat, b: nat, c: nat)
    ensures a * (b * c) == (a * b) * c
  {
  }

  // ---------- values that are fixed when the template is sealed ----------

  predicate PChar(c: char) {
    'a' <= c <= 'z' || 'A' <= c <= 'Z' || Digit(c) || c in "-._~!$&'()*+,;=:@"
  }

  predicate Decoded(high: char, low: char)
    requires HexDigit(high) && HexDigit(low)
  {
    var c := (16 * HexValue(high) + HexValue(low)) as char;
    c == '%' || PChar(c)
  }

  /** Path characters and percent-encoded path characters, from the offset to the end. */
  predicate PCharsFrom(s: string, offset: nat)
    requires offset <= |s|
    decreases |s| - offset
  {
    if offset == |s| then true
    else if s[offset] != '%' then PChar(s[offset]) && PCharsFrom(s, offset + 1)
    else
      && offset + 2 < |s|
      && HexDigit(s[offset + 1]) && HexDigit(s[offset + 2])
      && Decoded(s[offset + 1], s[offset + 2])
      && PCharsFrom(s, offset + 3)
  }

  predicate ValidRepresentationId(s: string) {
    s != "" && |s| <= MAX_TARGET && s != "." && s != ".." && PCharsFrom(s, 0)
  }

  method CheckRepresentationId(s: string) returns (ok: bool)
    ensures ok == ValidRepresentationId(s)
  {
    if s == "" || |s| > MAX_TARGET || s == "." || s == ".." {
      return false;
    }
    var offset := 0;
    while offset < |s|
      invariant offset <= |s| && PCharsFrom(s, 0) == PCharsFrom(s, offset)
    {
      if s[offset] != '%' {
        if !PChar(s[offset]) {
          return false;
        }
        offset := offset + 1;
        continue;
      }
      if offset + 2 >= |s| {
        return false;
      }
      if !HexDigit(s[offset + 1]) || !HexDigit(s[offset + 2]) {
        return false;
      }
      var decoded := (16 * HexValue(s[offset + 1]) + HexValue(s[offset + 2])) as char;
      if decoded != '%' && !PChar(decoded) {
        return false;
      }
      offset := offset + 3;
    }
    return true;
  }

  datatype Bindings = Bindings(representationId: string, bandwidth: string)

  /** The value of an expression that is fixed at sealing time; None for the others. */
  function FixedValue(e: string, b: Bindings): Result<Option<string>> {
    match ParseExpression(e)
    case None => Err
    case Some(x) =>
      if x.name == "RepresentationID" then
        if ValidRepresentationId(b.representationId) then Ok(Some(b.representationId))
        else Err
      else if x.name == "Bandwidth" then
        match ParseUint(b.bandwidth, 10)
        case None => Err
        case Some(n) => Ok(Some(FormatNumber(x, n)))
      else Ok(None)
  }

  lemma {:induction false} DigitsArePChars(s: string, offset: nat)
    requires offset <= |s| && forall i :: 0 <= i < |s| ==> HexDigit(s[i])
    ensures PCharsFrom(s, offset)
    decreases |s| - offset
  {
    if offset < |s| {
      DigitsArePChars(s, offset + 1);
    }
  }

  /** Every value fixed at sealing time is one that expansion accepts. */
  lemma FixedValueValid(e: string, b: Bindings)
    requires Identifier(e).Some? && FixedValue(e, b).Ok? && FixedValue(e, b).value.Some?
    ensures ValidRepresentationId(FixedValue(e, b).value.value)
  {
    hide FormatUint, FormatNumber, Pow, ValueOf, ParseExpression;
    var x := ParseExpression(e).value;
    if x.name == "Bandwidth" {
      var n := ParseUint(b.bandwidth, 10).value;
      var s := FormatNumber(x, n);
      NumberReadsBack(x, n);
      NumberLength(x, n);
      DigitsArePChars(s, 0);
      assert HexDigit(s[0]);
    }
  }
}
