/** StaticInformation as the program runs it: two stacks and an output list, pushed and popped
    around recursive calls (utils/print-introspected-doxygen.cc). */
module TypeGather {
  import opened Sequences
  import opened GraphWalk
  import opened TypeGraph

  ghost predicate Represents(a: Graph, g: Registry) {
    g.Valid() && |a| == |g.types| && GraphOk(a) && forall t :: 0 <= t < |a| ==> a[t] == Steps(g, t)
  }

  class StaticInformation {
    var output: seq<(TypeId, string)>
    var currentPath: seq<string>
    var alreadyProcessed: seq<TypeId>

    constructor ()
      ensures output == [] && currentPath == [] && alreadyProcessed == []
    {
      output, currentPath, alreadyProcessed := [], [], [];
    }

    method GetCurrentPath() returns (text: string)
      ensures text == Join(currentPath) && CutAt(text, currentPath)
    {
      text := "";
      for i := 0 to |currentPath|
        invariant text == Join(currentPath[..i])
      {
        text := text + "/" + currentPath[i];
        assert currentPath[..i + 1][..i] == currentPath[..i];
      }
      assert currentPath[..|currentPath|] == currentPath;
      JoinCut(currentPath);
    }

    method HasAlreadyBeenProcessed(tid: TypeId) returns (found: bool)
      ensures found <==> tid in alreadyProcessed
    {
      for i := 0 to |alreadyProcessed|
        invariant tid !in alreadyProcessed[..i]
      {
        if alreadyProcessed[i] == tid {
          return true;
        }
      }
      assert alreadyProcessed[..|alreadyProcessed|] == alreadyProcessed;
      return false;
    }

    method RecordOutput(tid: TypeId)
      modifies this`output
      ensures output == old(output) + [(tid, Join(currentPath))]
    {
      var text := GetCurrentPath();
      output := output + [(tid, text)];
    }

    // The edges `done` out of tid have been followed since the output was `base`.
    ghost predicate Listed(a: Graph, tid: TypeId, base: seq<(TypeId, string)>, done: seq<Step>)
      requires GraphOk(a)
      reads this
    {
      StepsOk(a, done) && output == base + StepRecords(a, done, alreadyProcessed + [tid], currentPath)
    }

    // One edge: push, recurse, pop.
    method Follow(g: Registry, tid: TypeId, e: Step, ghost a: Graph, ghost base: seq<(TypeId, string)>, ghost done: seq<Step>)
      requires Represents(a, g) && tid < |a| && e.target < |a| && tid !in alreadyProcessed
      requires Listed(a, tid, base, done)
      modifies this
      ensures currentPath == old(currentPath) && alreadyProcessed == old(alreadyProcessed)
      ensures Listed(a, tid, base, done + [e])
      decreases Free(a, alreadyProcessed + [tid]), 2
    {
      ghost var stack, path := alreadyProcessed + [tid], currentPath;
      currentPath := currentPath + [e.tag];
      alreadyProcessed := alreadyProcessed + [tid];
      DoGather(g, e.target, a);
      alreadyProcessed := alreadyProcessed[..|alreadyProcessed| - 1];
      currentPath := currentPath[..|currentPath| - 1];
      AppendRecords(a, done, e, stack, path, base);
    }

    /** Terminates on every finite type graph, restores both stacks, and appends the listing of
        the simple paths from tid that avoid the stacked types. */
    method DoGather(g: Registry, tid: TypeId, ghost a: Graph)
      requires Represents(a, g) && tid < |a|
      modifies this
      ensures currentPath == old(currentPath) && alreadyProcessed == old(alreadyProcessed)
      ensures output == old(output) + Records(a, tid, alreadyProcessed, currentPath)
      decreases Free(a, alreadyProcessed), 1
    {
      var found := HasAlreadyBeenProcessed(tid);
      if found {
        return;
      }
      RecordOutput(tid);
      FreeShrinks(a, alreadyProcessed, tid);
      ghost var base := output;
      GatherAttributes(g, tid, a, base);
      ghost var done := AttributeSteps(g, g.types[tid].attributes);
      GatherChildren(g, tid, a, base, done);
      done := done + ChildSteps(g, tid, |g.types|);
      GatherAggregates(g, tid, a, base, done);
      FirstRecord(a, tid, alreadyProcessed, currentPath, old(output));
    }

    method GatherAttributes(g: Registry, tid: TypeId, ghost a: Graph, ghost base: seq<(TypeId, string)>)
      requires Represents(a, g) && tid < |a| && tid !in alreadyProcessed && output == base
      modifies this
      ensures currentPath == old(currentPath) && alreadyProcessed == old(alreadyProcessed)
      ensures Listed(a, tid, base, AttributeSteps(g, g.types[tid].attributes))
      decreases Free(a, alreadyProcessed + [tid]), 3
    {
      var attributes := g.types[tid].attributes;
      ghost var done: seq<Step> := [];
      for i := 0 to |attributes|
        invariant currentPath == old(currentPath) && alreadyProcessed == old(alreadyProcessed)
        invariant done == AttributeSteps(g, attributes[..i])
        invariant Listed(a, tid, base, done)
      {
        NextAttribute(g, attributes, i);
        match attributes[i]
        case Pointer(name, pointee) =>
          if pointee != g.objectType {
            Follow(g, tid, Step(name, pointee), a, base, done);
            done := done + [Step(name, pointee)];
          }
        case Container(name, item) =>
          Follow(g, tid, Step(name + "/[i]", item), a, base, done);
          done := done + [Step(name + "/[i]", item)];
        case Plain(_) =>
      }
      assert attributes[..|attributes|] == attributes;
    }

    method GatherChildren(g: Registry, tid: TypeId, ghost a: Graph, ghost base: seq<(TypeId, string)>, ghost first: seq<Step>)
      requires Represents(a, g) && tid < |a| && tid !in alreadyProcessed && Listed(a, tid, base, first)
      modifies this
      ensures currentPath == old(currentPath) && alreadyProcessed == old(alreadyProcessed)
      ensures Listed(a, tid, base, first + ChildSteps(g, tid, |g.types|))
      decreases Free(a, alreadyProcessed + [tid]), 3
    {
      ghost var done := first;
      assert first + [] == first;
      for j := 0 to |g.types|
        invariant currentPath == old(currentPath) && alreadyProcessed == old(alreadyProcessed)
        invariant done == first + ChildSteps(g, tid, j)
        invariant Listed(a, tid, base, done)
      {
        if tid in g.types[j].ancestors {
          var e := Step("$" + g.types[j].name, j);
          Follow(g, tid, e, a, base, done);
          done := done + [e];
        }
      }
    }

    method GatherAggregates(g: Registry, tid: TypeId, ghost a: Graph, ghost base: seq<(TypeId, string)>, ghost first: seq<Step>)
      requires Represents(a, g) && tid < |a| && tid !in alreadyProcessed && Listed(a, tid, base, first)
      modifies this
      ensures currentPath == old(currentPath) && alreadyProcessed == old(alreadyProcessed)
      ensures Listed(a, tid, base, first + AggregateSteps(g, tid, |g.aggregates|))
      decreases Free(a, alreadyProcessed + [tid]), 3
    {
      ghost var done := first;
      assert first + [] == first;
      for k := 0 to |g.aggregates|
        invariant currentPath == old(currentPath) && alreadyProcessed == old(alreadyProcessed)
        invariant done == first + AggregateSteps(g, tid, k)
        invariant Listed(a, tid, base, done)
      {
        NextAggregate(g, tid, k, first);
        var one, two := g.aggregates[k].0, g.aggregates[k].1;
        if one == tid || two == tid {
          var other := if two == tid then one else two;
          var e := Step("$" + g.types[other].name, other);
          Follow(g, tid, e, a, base, done);
          done := done + [e];
        }
      }
    }

    /** From empty stacks, in depth-first order: one record for each simple path out of tid in the
        type graph and no other, with the type it ends in and its labels, each after a slash. */
    method Gather(g: Registry, tid: TypeId)
      requires g.Valid() && tid < |g.types| && currentPath == [] && alreadyProcessed == []
      modifies this
      ensures currentPath == [] && alreadyProcessed == []
      ensures exists ws: seq<seq<nat>> ::
        && NoRepeats(ws) && InOrder(ws)
        && (forall w :: w in ws <==> SimplePath(Edges(g), tid, [], w))
        && old(output) <= output
        && Texts(Edges(g), tid, [], ws, output[|old(output)|..])
    {
      DoGather(g, tid, Edges(g));
      RecordsAreSimplePaths(Edges(g), tid, [], []);
      assert output[|old(output)|..] == Records(Edges(g), tid, [], []);
    }
  }

  lemma AppendRecords(a: Graph, done: seq<Step>, e: Step, stack: seq<TypeId>, path: seq<string>, base: seq<(TypeId, string)>)
    requires GraphOk(a) && StepsOk(a, done) && e.target < |a|
    ensures StepsOk(a, done + [e])
    ensures base + StepRecords(a, done, stack, path) + Records(a, e.target, stack, path + [e.tag])
         == base + StepRecords(a, done + [e], stack, path)
  {
    assert (done + [e])[..|done|] == done;
  }

  lemma NextAttribute(g: Registry, attributes: seq<Attribute>, i: nat)
    requires i < |attributes|
    ensures AttributeSteps(g, attributes[..i + 1]) == AttributeSteps(g, attributes[..i]) + AttributeStep(g, attributes[i])
  {
    assert attributes[..i + 1][..i] == attributes[..i];
  }

  lemma NextAggregate(g: Registry, tid: TypeId, k: nat, first: seq<Step>)
    requires g.Valid() && k < |g.aggregates|
    ensures var one, two := g.aggregates[k].0, g.aggregates[k].1;
      var other := if two == tid then one else two;
      var done := first + AggregateSteps(g, tid, k);
      && one < |g.types| && two < |g.types|
      && first + AggregateSteps(g, tid, k + 1)
         == if one == tid || two == tid then done + [Step("$" + g.types[other].name, other)] else done
  {
  }

  lemma FirstRecord(a: Graph, tid: TypeId, stack: seq<TypeId>, path: seq<string>, out: seq<(TypeId, string)>)
    requires GraphOk(a) && tid < |a| && tid !in stack
    ensures out + [(tid, Join(path))] + StepRecords(a, a[tid], stack + [tid], path)
         == out + Records(a, tid, stack, path)
  {
  }
}
