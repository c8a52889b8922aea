/** The type graph of the introspection tool (utils/print-introspected-doxygen.cc): which types
    a type leads to, by attribute, by inheritance and by aggregation. */
module TypeGraph {
  import opened GraphWalk

  datatype Attribute =
    | Pointer(name: string, pointee: TypeId)
    | Container(name: string, item: TypeId)
    | Plain(name: string)

  datatype TypeInfo = TypeInfo(name: string, attributes: seq<Attribute>, ancestors: set<TypeId>)

  /** The registered types, in registration order, and the recorded aggregations. */
  datatype Registry = Registry(types: seq<TypeInfo>, objectType: TypeId, aggregates: seq<(TypeId, TypeId)>) {
    predicate Valid() {
      && (forall t, i :: 0 <= t < |types| && 0 <= i < |types[t].attributes| ==> AttributeOk(types[t].attributes[i]))
      && (forall i :: 0 <= i < |aggregates| ==> aggregates[i].0 < |types| && aggregates[i].1 < |types|)
    }

    predicate AttributeOk(a: Attribute) {
      && (a.Pointer? ==> a.pointee < |types|)
      && (a.Container? ==> a.item < |types|)
    }
  }

  // The edge an attribute gives; a pointer to a bare Object gives none.
  function AttributeStep(g: Registry, a: Attribute): seq<Step> {
    match a
    case Pointer(name, pointee) => if pointee == g.objectType then [] else [Step(name, pointee)]
    case Container(name, item) => [Step(name + "/[i]", item)]
    case Plain(_) => []
  }

  function AttributeSteps(g: Registry, attributes: seq<Attribute>): seq<Step> {
    if attributes == [] then [] else
      AttributeSteps(g, attributes[..|attributes| - 1]) + AttributeStep(g, attributes[|attributes| - 1])
  }

  function ChildSteps(g: Registry, t: TypeId, n: nat): seq<Step>
    requires n <= |g.types|
  {
    if n == 0 then [] else
      ChildSteps(g, t, n - 1) +
      if t in g.types[n - 1].ancestors then [Step("$" + g.types[n - 1].name, n - 1)] else []
  }

  function AggregateStep(g: Registry, t: TypeId, pair: (TypeId, TypeId)): seq<Step>
    requires pair.0 < |g.types| && pair.1 < |g.types|
  {
    var other := if pair.1 == t then pair.0 else pair.1;
    if pair.0 == t || pair.1 == t then [Step("$" + g.types[other].name, other)] else []
  }

  function AggregateSteps(g: Registry, t: TypeId, n: nat): seq<Step>
    requires g.Valid() && n <= |g.aggregates|
  {
    if n == 0 then [] else AggregateSteps(g, t, n - 1) + AggregateStep(g, t, g.aggregates[n - 1])
  }

  /** The edges of the type graph out of t, in the order in which the walk takes them. */
  function Steps(g: Registry, t: TypeId): seq<Step>
    requires g.Valid() && t < |g.types|
  {
    AttributeSteps(g, g.types[t].attributes) + ChildSteps(g, t, |g.types|) + AggregateSteps(g, t, |g.aggregates|)
  }

  // ---- the edges, said without the loops

  predicate ByAttribute(g: Registry, a: Attribute, e: Step) {
    || (a.Pointer? && a.pointee != g.objectType && e == Step(a.name, a.pointee))
    || (a.Container? && e == Step(a.name + "/[i]", a.item))
  }

  predicate ByAggregate(g: Registry, pair: (TypeId, TypeId), t: TypeId, e: Step)
    requires pair.0 < |g.types| && pair.1 < |g.types|
  {
    || (pair.0 == t && e == Step("$" + g.types[pair.1].name, pair.1))
    || (pair.1 == t && e == Step("$" + g.types[pair.0].name, pair.0))
  }

  lemma {:induction false} AttributeStepsMean(g: Registry, attributes: seq<Attribute>, e: Step)
    ensures e in AttributeSteps(g, attributes) <==> exists i :: 0 <= i < |attributes| && ByAttribute(g, attributes[i], e)
  {
    if attributes != [] {
      var init, last := attributes[..|attributes| - 1], attributes[|attributes| - 1];
      AttributeStepsMean(g, init, e);
      assert e in AttributeStep(g, last) <==> ByAttribute(g, last, e);
      if i :| 0 <= i < |init| && ByAttribute(g, init[i], e) {
        assert attributes[i] == init[i];
      }
      if i :| 0 <= i < |attributes| && ByAttribute(g, attributes[i], e) {
        assert i < |init| ==> init[i] == attributes[i];
      }
    }
  }

  lemma {:induction false} ChildStepsMean(g: Registry, t: TypeId, n: nat, e: Step)
    requires n <= |g.types|
    ensures e in ChildSteps(g, t, n) <==>
              e.target < n && t in g.types[e.target].ancestors && e.tag == "$" + g.types[e.target].name
  {
    if n > 0 {
      ChildStepsMean(g, t, n - 1, e);
    }
  }

  lemma {:induction false} AggregateStepsMean(g: Registry, t: TypeId, n: nat, e: Step)
    requires g.Valid() && n <= |g.aggregates|
    ensures e in AggregateSteps(g, t, n) <==> exists i :: 0 <= i < n && ByAggregate(g, g.aggregates[i], t, e)
  {
    if n > 0 {
      AggregateStepsMean(g, t, n - 1, e);
      assert ByAggregate(g, g.aggregates[n - 1], t, e) <==> e in AggregateStep(g, t, g.aggregates[n - 1]);
    }
  }

  /** There is an edge from t exactly for each pointer attribute (but not to a bare Object), each
      container attribute, each derived type and each aggregation partner. */
  lemma StepsMean(g: Registry, t: TypeId, e: Step)
    requires g.Valid() && t < |g.types|
    ensures e in Steps(g, t) <==>
      || (exists i :: 0 <= i < |g.types[t].attributes| && ByAttribute(g, g.types[t].attributes[i], e))
      || (e.target < |g.types| && t in g.types[e.target].ancestors && e.tag == "$" + g.types[e.target].name)
      || (exists i :: 0 <= i < |g.aggregates| && ByAggregate(g, g.aggregates[i], t, e))
  {
    AttributeStepsMean(g, g.types[t].attributes, e);
    ChildStepsMean(g, t, |g.types|, e);
    AggregateStepsMean(g, t, |g.aggregates|, e);
  }

  // ---- their order

  lemma {:induction false} AttributesInOrder(g: Registry, a: seq<Attribute>, b: seq<Attribute>)
    ensures AttributeSteps(g, a + b) == AttributeSteps(g, a) + AttributeSteps(g, b)
    decreases |b|
  {
    if b == [] {
      assert a + b == a;
    } else {
      assert (a + b)[..|a + b| - 1] == a + b[..|b| - 1];
      AttributesInOrder(g, a, b[..|b| - 1]);
    }
  }

  lemma OneAttribute(g: Registry, x: Attribute)
    ensures AttributeSteps(g, [x]) ==
      if x.Pointer? && x.pointee != g.objectType then [Step(x.name, x.pointee)]
      else if x.Container? then [Step(x.name + "/[i]", x.item)] else []
  {
    assert [x][..0] == [];
    assert AttributeSteps(g, [x]) == AttributeSteps(g, []) + AttributeStep(g, x);
  }

  lemma {:induction false} ChildrenInOrder(g: Registry, t: TypeId, n: nat)
    requires n <= |g.types|
    ensures forall i :: 0 <= i < |ChildSteps(g, t, n)| ==> ChildSteps(g, t, n)[i].target < n
    ensures forall i, j :: 0 <= i < j < |ChildSteps(g, t, n)| ==> ChildSteps(g, t, n)[i].target < ChildSteps(g, t, n)[j].target
  {
    if n > 0 {
      ChildrenInOrder(g, t, n - 1);
    }
  }

  lemma {:induction false} AggregatesInOrder(g: Registry, t: TypeId, n: nat, m: nat)
    requires g.Valid() && n < m <= |g.aggregates|
    ensures AggregateSteps(g, t, n) <= AggregateSteps(g, t, m)
    ensures var pair := g.aggregates[n]; var k := |AggregateSteps(g, t, n)|;
      if pair.0 == t || pair.1 == t
      then k < |AggregateSteps(g, t, m)| && ByAggregate(g, pair, t, AggregateSteps(g, t, m)[k])
      else |AggregateSteps(g, t, n + 1)| == k
  {
    if m > n + 1 {
      AggregatesInOrder(g, t, n, m - 1);
    }
  }

  /** The edges come attribute by attribute, then by derived type in the order of registration, then
      aggregation by aggregation. */
  lemma StepsInOrder(g: Registry, t: TypeId, e: Step)
    requires g.Valid() && t < |g.types|
    ensures var c := ChildSteps(g, t, |g.types|); var rest := AggregateSteps(g, t, |g.aggregates|);
      && Steps(g, t) == AttributeSteps(g, g.types[t].attributes) + c + rest
      && (forall i, j :: 0 <= i < j < |c| ==> c[i].target < c[j].target)
      && (e in c <==> e.target < |g.types| && t in g.types[e.target].ancestors && e.tag == "$" + g.types[e.target].name)
      && (e in rest <==> exists i :: 0 <= i < |g.aggregates| && ByAggregate(g, g.aggregates[i], t, e))
  {
    ChildrenInOrder(g, t, |g.types|);
    ChildStepsMean(g, t, |g.types|, e);
    AggregateStepsMean(g, t, |g.aggregates|, e);
  }

  ghost predicate TargetsOk(g: Registry, es: seq<Step>) {
    forall i :: 0 <= i < |es| ==> es[i].target < |g.types|
  }

  lemma {:induction false} AttributeStepsOk(g: Registry, attributes: seq<Attribute>)
    requires forall i :: 0 <= i < |attributes| ==> g.AttributeOk(attributes[i])
    ensures TargetsOk(g, AttributeSteps(g, attributes))
  {
    if attributes != [] {
      AttributeStepsOk(g, attributes[..|attributes| - 1]);
    }
  }

  lemma {:induction false} ChildStepsOk(g: Registry, t: TypeId, n: nat)
    requires n <= |g.types|
    ensures TargetsOk(g, ChildSteps(g, t, n))
  {
    if n > 0 {
      ChildStepsOk(g, t, n - 1);
    }
  }

  lemma {:induction false} AggregateStepsOk(g: Registry, t: TypeId, n: nat)
    requires g.Valid() && n <= |g.aggregates|
    ensures TargetsOk(g, AggregateSteps(g, t, n))
  {
    if n > 0 {
      AggregateStepsOk(g, t, n - 1);
    }
  }

  lemma AllStepsOk(g: Registry, t: TypeId)
    requires g.Valid() && t < |g.types|
    ensures TargetsOk(g, Steps(g, t))
  {
    AttributeStepsOk(g, g.types[t].attributes);
    ChildStepsOk(g, t, |g.types|);
    AggregateStepsOk(g, t, |g.aggregates|);
  }

  /** The whole type graph. */
  ghost function Edges(g: Registry): (a: Graph)
    requires g.Valid()
    ensures |a| == |g.types| && GraphOk(a)
  {
    var a := seq(|g.types|, t requires 0 <= t < |g.types| => Steps(g, t));
    assert GraphOk(a) by {
      forall t | 0 <= t < |a| ensures StepsOk(a, a[t]) {
        AllStepsOk(g, t);
      }
    }
    a
  }
}
