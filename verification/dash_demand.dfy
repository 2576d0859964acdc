/** Exactly what the estimate of a manifest counts, and when it refuses one. */
module DashDemand {
  import opened Wrappers
  import opened DashTree
  import opened DashAddressing
  import opened DashPushdown
  import opened DashEstimate

  // ---------- what a subtree counts ----------

  datatype Tally = Tally(elements: nat, attributes: nat, characters: nat)

  function Sum(a: Tally, b: Tally): Tally {
    Tally(a.elements + b.elements, a.attributes + b.attributes, a.characters + b.characters)
  }

  function NameLength(n: Name): nat {
    |n.space| + |n.local|
  }

  function AttrsTally(attrs: seq<Attr>): Tally {
    if attrs == [] then Tally(0, 0, 0)
    else Sum(Tally(0, 1, NameLength(attrs[0].name) + |attrs[0].value|), AttrsTally(attrs[1..]))
  }

  function TallyOf(n: Node): Tally
    decreases ContentSize(n.content), 1
  {
    Sum(Sum(Tally(1, 0, NameLength(n.name)), AttrsTally(n.attrs)), TallyAll(n.content))
  }

  function TallyAll(content: seq<Content>): Tally
    decreases ContentSize(content), 0
  {
    if content == [] then Tally(0, 0, 0)
    else Sum(if content[0].Text? then Tally(0, 0, |content[0].text|) else TallyOf(content[0].node), TallyAll(content[1..]))
  }

  /** An element counts 32 bytes, an attribute 24, and every character of names, values and text one. */
  function Weigh(t: Tally): Shape {
    Shape(t.elements, 32 * t.elements + 24 * t.attributes + t.characters)
  }

  lemma WeighSum(a: Tally, b: Tally)
    ensures Weigh(Sum(a, b)) == Plus(Weigh(a), Weigh(b))
  {
  }

  lemma {:induction false} AttrsExactly(attrs: seq<Attr>)
    ensures Weigh(AttrsTally(attrs)) == Shape(0, AttrsBytes(attrs))
  {
    hide Weigh, Sum, AttrBytes;
    if attrs == [] {
      WeighText("");
    } else {
      AttrsExactly(attrs[1..]);
      WeighAttr(attrs[0]);
      WeighSum(Tally(0, 1, NameLength(attrs[0].name) + |attrs[0].value|), AttrsTally(attrs[1..]));
    }
  }

  lemma WeighAttr(a: Attr)
    ensures Weigh(Tally(0, 1, NameLength(a.name) + |a.value|)) == Shape(0, AttrBytes(a))
  {
  }

  lemma {:induction false} ShapeExactly(n: Node)
    ensures ShapeOf(n) == Weigh(TallyOf(n))
    decreases ContentSize(n.content), 1
  {
    hide Weigh, Sum, AttrsTally, AttrsBytes;
    AttrsExactly(n.attrs);
    ShapesExactly(n.content);
    var own := Tally(1, 0, NameLength(n.name));
    WeighSum(own, AttrsTally(n.attrs));
    WeighSum(Sum(own, AttrsTally(n.attrs)), TallyAll(n.content));
    assert Weigh(own) == Shape(1, 32 + NameLength(n.name)) by { WeighOwn(n); }
  }

  lemma WeighOwn(n: Node)
    ensures Weigh(Tally(1, 0, NameLength(n.name))) == Shape(1, 32 + NameLength(n.name))
  {
  }

  lemma WeighText(s: string)
    ensures Weigh(Tally(0, 0, |s|)) == Shape(0, |s|) && Weigh(Tally(0, 0, 0)) == Zero()
  {
  }

  lemma {:induction false} ShapesExactly(content: seq<Content>)
    ensures ShapeAll(content) == Weigh(TallyAll(content))
    decreases ContentSize(content), 0
  {
    hide Weigh, Sum;
    WeighText("");
    if content != [] {
      ShapesExactly(content[1..]);
      var c := content[0];
      if c.Text? {
        WeighText(c.text);
        WeighSum(Tally(0, 0, |c.text|), TallyAll(content[1..]));
      } else {
        ShapeExactly(c.node);
        WeighSum(TallyOf(c.node), TallyAll(content[1..]));
      }
    }
  }

  // ---------- what the Representations may receive ----------

  /** Every Representation asks for all the addressing at its own level and above, if there is any. */
  function Demand(n: Node, inherited: Shape): Shape
    decreases ContentSize(n.content), 1
  {
    var effective := Plus(inherited, AddressingShape(n.content));
    Plus(if IsRepresentation(n) && effective.nodes > 0 then effective else Zero(), DemandAll(n.content, effective))
  }

  function DemandAll(content: seq<Content>, inherited: Shape): Shape
    decreases ContentSize(content), 0
  {
    if content == [] then Zero()
    else
      Plus(if content[0].Text? || IsAddressing(content[0]) then Zero() else Demand(content[0].node, inherited),
           DemandAll(content[1..], inherited))
  }

  predicate Allowed(s: Shape, maxBytes: nat) {
    s.nodes <= 50000 && s.bytes <= maxBytes
  }

  /**
   The estimate adds up exactly what the Representations below ask for, and refuses a manifest
   exactly if that, with what was used before, is over one of the limits.
   */
  lemma {:induction false} EstimateExactly(n: Node, inherited: Shape, used: Shape, maxBytes: nat)
    requires Allowed(used, maxBytes)
    ensures Estimate(n, inherited, used, maxBytes)
      == if Allowed(Plus(used, Demand(n, inherited)), maxBytes) then Ok(Plus(used, Demand(n, inherited))) else Err
    decreases ContentSize(n.content), 1
  {
    hide AddressingShape, DemandAll, EstimateAll;
    var effective := Plus(inherited, AddressingShape(n.content));
    if IsRepresentation(n) && effective.nodes > 0 {
      if Allowed(Plus(used, effective), maxBytes) {
        EstimatesExactly(n.content, effective, Plus(used, effective), maxBytes);
      }
    } else {
      EstimatesExactly(n.content, effective, used, maxBytes);
    }
  }

  lemma {:induction false} EstimatesExactly(content: seq<Content>, inherited: Shape, used: Shape, maxBytes: nat)
    requires Allowed(used, maxBytes)
    ensures EstimateAll(content, inherited, used, maxBytes)
      == if Allowed(Plus(used, DemandAll(content, inherited)), maxBytes) then Ok(Plus(used, DemandAll(content, inherited))) else Err
    decreases ContentSize(content), 0
  {
    hide Estimate, Demand;
    if content != [] {
      if content[0].Text? || IsAddressing(content[0]) {
        EstimatesExactly(content[1..], inherited, used, maxBytes);
      } else {
        EstimateExactly(content[0].node, inherited, used, maxBytes);
        var own := Demand(content[0].node, inherited);
        if Allowed(Plus(used, own), maxBytes) {
          EstimatesExactly(content[1..], inherited, Plus(used, own), maxBytes);
        }
      }
    }
  }
}
