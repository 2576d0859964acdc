/**
 The reserved markers of a DASH template. A sentinel stands for an expression
 while a URL is resolved, the literal-dollar marker and the fixed markers stay in
 the sealed claim. What a search for one of them finds depends on how they are spelled.
 */
module DashMarkers {
  import opened DashStrings

  function Core(): string { "MERIDIAN_DASH_TEMPLATE_" }

  function FixedCore(): string { "meridian-dash-fixed-" }

  function TemplatePrefix(): string { "__" + Core() }

  function Tag(body: string): string { "__" + Core() + body + "__" }

  function Sentinel(i: nat): string { Tag(Itoa(i)) }

  function Literal(): string { "LITERAL_DOLLAR" }

  function LiteralMarker(): (s: string)
    ensures s != ""
  {
    Tag(Literal())
  }

  function FixedMarker(k: nat): (s: string)
    ensures s != ""
  {
    FixedCore() + Itoa(k) + "-x"
  }

  predicate Body(b: string) {
    b == Literal() || (b != "" && forall i :: 0 <= i < |b| ==> Digit(b[i]))
  }

  // ---------- the spelling of the markers ----------

  lemma CoreShape()
    ensures |Core()| == 23 && Core()[0] == 'M' && Core()[1] == 'E' && Core()[22] == '_'
    ensures forall i :: 0 < i < 23 && Core()[i] == 'M' ==> i < 22 && Core()[i + 1] == 'P'
    ensures forall i :: 0 <= i < 22 && Core()[i] == '_' ==> Core()[i + 1] != '_'
  {
  }

  lemma FixedCoreShape()
    ensures |FixedCore()| == 20 && FixedCore()[0] == 'm'
    ensures forall i :: 0 < i < 20 ==> FixedCore()[i] != 'm'
    ensures '$' !in FixedCore() && '_' !in FixedCore()
  {
  }

  lemma LiteralShape()
    ensures Literal() != "" && Literal()[0] == 'L'
    ensures 'M' !in Literal()
  {
  }

  lemma EdgesOutside()
    ensures '$' !in Core() && 'm' !in Core() && 'x' !in Core()
  {
  }
}
