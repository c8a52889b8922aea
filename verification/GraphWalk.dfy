/** Walks over a finite directed graph with labelled, ordered edges: the depth-first listing of
    all paths that repeat no node, and the proof that it lists each of them once. */
module GraphWalk {
  import opened Sequences

  type TypeId = nat

  /** An edge: what is appended to the path, and the node it leads to. */
  datatype Step = Step(tag: string, target: TypeId)

  /** The edges out of each node, in the order in which the walk takes them. */
  type Graph = seq<seq<Step>>

  ghost predicate StepsOk(a: Graph, es: seq<Step>) {
    forall i :: 0 <= i < |es| ==> es[i].target < |a|
  }

  ghost predicate GraphOk(a: Graph) {
    forall t :: 0 <= t < |a| ==> StepsOk(a, a[t])
  }

  // The nodes that are not on the stack.
  function Free(a: Graph, stack: seq<TypeId>): set<TypeId> {
    set t: TypeId | t < |a| && t !in stack
  }

  lemma FreeShrinks(a: Graph, stack: seq<TypeId>, t: TypeId)
    requires t < |a| && t !in stack
    ensures Free(a, stack + [t]) < Free(a, stack)
  {
    assert t in Free(a, stack) && t !in Free(a, stack + [t]);
  }

  // ---- walks: the independent account of what should be listed

  /** A walk is the sequence of edge numbers taken from a start type. */
  ghost predicate IsWalk(a: Graph, t: TypeId, w: seq<nat>)
    requires GraphOk(a) && t < |a|
    decreases |w|
  {
    w == [] || (w[0] < |a[t]| && IsWalk(a, a[t][w[0]].target, w[1..]))
  }

  // The types on a walk, the start included.
  ghost function Visits(a: Graph, t: TypeId, w: seq<nat>): (v: seq<TypeId>)
    requires GraphOk(a) && t < |a| && IsWalk(a, t, w)
    ensures |v| == |w| + 1 && v[0] == t
    decreases |w|
  {
    if w == [] then [t] else
      [t] + Visits(a, a[t][w[0]].target, w[1..])
  }

  // The labels along a walk.
  ghost function Labels(a: Graph, t: TypeId, w: seq<nat>): seq<string>
    requires GraphOk(a) && t < |a| && IsWalk(a, t, w)
    decreases |w|
  {
    if w == [] then [] else
      [a[t][w[0]].tag] + Labels(a, a[t][w[0]].target, w[1..])
  }

  /** A simple path from t that avoids the types on the stack. */
  ghost predicate SimplePath(a: Graph, t: TypeId, stack: seq<TypeId>, w: seq<nat>)
    requires GraphOk(a) && t < |a|
  {
    && IsWalk(a, t, w)
    && NoRepeats(Visits(a, t, w))
    && forall i :: 0 <= i <= |w| ==> Visits(a, t, w)[i] !in stack
  }

  function Join(path: seq<string>): string {
    if path == [] then "" else Join(path[..|path| - 1]) + "/" + path[|path| - 1]
  }

  /** The text is its labels one after the other, each after one slash. */
  predicate CutAt(text: string, labels: seq<string>)
    decreases |labels|
  {
    if labels == [] then text == ""
    else "/" + labels[0] <= text && CutAt(text[1 + |labels[0]|..], labels[1..])
  }

  lemma {:induction false} JoinAppend(a: seq<string>, b: seq<string>)
    ensures Join(a + b) == Join(a) + Join(b)
    decreases |b|
  {
    if b == [] {
      assert a + b == a;
    } else {
      assert (a + b)[..|a + b| - 1] == a + b[..|b| - 1];
      JoinAppend(a, b[..|b| - 1]);
    }
  }

  lemma JoinOne(x: string)
    ensures Join([]) == "" && Join([x]) == "/" + x
  {
    assert [x][..0] == [];
    assert Join([x]) == Join([]) + "/" + x;
  }

  lemma {:induction false} JoinCut(path: seq<string>)
    ensures CutAt(Join(path), path)
    decreases |path|
  {
    if path != [] {
      var rest := path[1..];
      JoinAppend([path[0]], rest);
      JoinOne(path[0]);
      assert path == [path[0]] + rest;
      assert Join(path) == ("/" + path[0]) + Join(rest);
      assert Join(path)[1 + |path[0]|..] == Join(rest);
      JoinCut(rest);
    }
  }

  /** The record of a walk: the type it ends in and the path string from the root. */
  ghost function RecordOf(a: Graph, t: TypeId, path: seq<string>, w: seq<nat>): (TypeId, string)
    requires GraphOk(a) && t < |a| && IsWalk(a, t, w)
  {
    (Visits(a, t, w)[|w|], Join(path + Labels(a, t, w)))
  }

  // ---- the listing, as the walk produces it

  ghost function Records(a: Graph, t: TypeId, stack: seq<TypeId>, path: seq<string>): seq<(TypeId, string)>
    requires GraphOk(a) && t < |a|
    decreases Free(a, stack), 1, 0
  {
    if t in stack then [] else
      FreeShrinks(a, stack, t);
      [(t, Join(path))] + StepRecords(a, a[t], stack + [t], path)
  }

  ghost function StepRecords(a: Graph, es: seq<Step>, stack: seq<TypeId>, path: seq<string>): seq<(TypeId, string)>
    requires GraphOk(a) && StepsOk(a, es)
    decreases Free(a, stack), 2, |es|
  {
    if es == [] then [] else
      var e := es[|es| - 1];
      StepRecords(a, es[..|es| - 1], stack, path) + Records(a, e.target, stack, path + [e.tag])
  }

  // ---- the enumeration of the simple paths in the same order

  ghost function Walks(a: Graph, t: TypeId, stack: seq<TypeId>): seq<seq<nat>>
    requires GraphOk(a) && t < |a|
    decreases Free(a, stack), 1, 0
  {
    if t in stack then [] else
      FreeShrinks(a, stack, t);
      [[]] + StepWalks(a, t, |a[t]|, stack + [t])
  }

  // The walks that start with one of the first k edges of t.
  ghost function StepWalks(a: Graph, t: TypeId, k: nat, stack: seq<TypeId>): seq<seq<nat>>
    requires GraphOk(a) && t < |a| && k <= |a[t]|
    decreases Free(a, stack), 2, k
  {
    if k == 0 then [] else
      StepWalks(a, t, k - 1, stack) + Prepend(k - 1, Walks(a, a[t][k - 1].target, stack))
  }

  ghost function Prepend(k: nat, ws: seq<seq<nat>>): seq<seq<nat>> {
    seq(|ws|, i requires 0 <= i < |ws| => [k] + ws[i])
  }

  // ---- soundness, completeness, no repetition

  lemma SimplePathStep(a: Graph, t: TypeId, stack: seq<TypeId>, k: nat, w: seq<nat>)
    requires GraphOk(a) && t < |a| && k < |a[t]| && t !in stack
    requires a[t][k].target < |a|
    ensures SimplePath(a, t, stack, [k] + w) <==> SimplePath(a, a[t][k].target, stack + [t], w)
  {
    var u, kw := a[t][k].target, [k] + w;
    assert kw[1..] == w;
    if IsWalk(a, u, w) {
      var v, v' := Visits(a, t, kw), Visits(a, u, w);
      assert v == [t] + v';
      if SimplePath(a, t, stack, kw) {
        forall i | 0 <= i <= |w| ensures v'[i] !in stack + [t] {
          assert v'[i] == v[i + 1];
          assert v[0] != v[i + 1];
        }
        forall i, j | 0 <= i < j < |v'| ensures v'[i] != v'[j] {
          assert v'[i] == v[i + 1] && v'[j] == v[j + 1];
        }
      }
      if SimplePath(a, u, stack + [t], w) {
        forall i | 0 <= i <= |kw| ensures v[i] !in stack {
          if i > 0 {
            assert v[i] == v'[i - 1];
            assert v'[i - 1] !in stack + [t];
          }
        }
        forall i, j | 0 <= i < j < |v| ensures v[i] != v[j] {
          assert v[j] == v'[j - 1] && v'[j - 1] !in stack + [t];
          if i > 0 {
            assert v[i] == v'[i - 1];
          }
        }
      }
    }
  }

  lemma InPrepend(k: nat, ws: seq<seq<nat>>, w: seq<nat>)
    ensures w in Prepend(k, ws) <==> w != [] && w[0] == k && w[1..] in ws
  {
    var p := Prepend(k, ws);
    if w in p {
      var i :| 0 <= i < |p| && p[i] == w;
      assert w[1..] == ws[i];
    }
    if w != [] && w[0] == k && w[1..] in ws {
      var i :| 0 <= i < |ws| && ws[i] == w[1..];
      assert p[i] == [k] + w[1..] == w;
    }
  }

  /** The enumeration holds exactly the simple paths that avoid the stack. */
  lemma {:induction false} WalksExact(a: Graph, t: TypeId, stack: seq<TypeId>, w: seq<nat>)
    requires GraphOk(a) && t < |a|
    ensures w in Walks(a, t, stack) <==> SimplePath(a, t, stack, w)
    decreases Free(a, stack), 1, 0
  {
    if t in stack {
      if IsWalk(a, t, w) {
        assert Visits(a, t, w)[0] == t;
      }
    } else {
      FreeShrinks(a, stack, t);
      var rest := StepWalks(a, t, |a[t]|, stack + [t]);
      assert Walks(a, t, stack) == [[]] + rest;
      if w == [] {
        assert Visits(a, t, w) == [t];
        assert ([[]] + rest)[0] == w;
      } else {
        StepWalksExact(a, t, |a[t]|, stack, w);
        assert w in [[]] + rest <==> w in rest;
      }
    }
  }

  lemma {:induction false} StepWalksExact(a: Graph, t: TypeId, k: nat, stack: seq<TypeId>, w: seq<nat>)
    requires GraphOk(a) && t < |a| && k <= |a[t]| && t !in stack && w != []
    ensures w in StepWalks(a, t, k, stack + [t]) <==> w[0] < k && SimplePath(a, t, stack, w)
    decreases Free(a, stack + [t]), 2, k
  {
    if k > 0 {
      StepWalksExact(a, t, k - 1, stack, w);
      var u := a[t][k - 1].target;
      var tail := Walks(a, u, stack + [t]);
      InPrepend(k - 1, tail, w);
      WalksExact(a, u, stack + [t], w[1..]);
      if w[0] == k - 1 {
        assert [k - 1] + w[1..] == w;
        SimplePathStep(a, t, stack, k - 1, w[1..]);
      }
    }
  }

  lemma PrependDistinct(k: nat, ws: seq<seq<nat>>)
    requires NoRepeats(ws)
    ensures NoRepeats(Prepend(k, ws))
  {
    var p := Prepend(k, ws);
    forall i, j | 0 <= i < j < |p| ensures p[i] != p[j] {
      assert p[i][1..] == ws[i] && p[j][1..] == ws[j];
    }
  }

  /** No simple path is enumerated twice. */
  lemma {:induction false} WalksDistinct(a: Graph, t: TypeId, stack: seq<TypeId>)
    requires GraphOk(a) && t < |a|
    ensures NoRepeats(Walks(a, t, stack))
    decreases Free(a, stack), 1, 0
  {
    if t !in stack {
      FreeShrinks(a, stack, t);
      var rest := StepWalks(a, t, |a[t]|, stack + [t]);
      StepWalksDistinct(a, t, |a[t]|, stack + [t]);
      NoRepeatsConcat([[]], rest);
    }
  }

  /** Depth first: a walk comes before its continuations, and earlier edges come before later ones. */
  predicate Before(u: seq<nat>, v: seq<nat>)
    decreases |u|
  {
    v != [] && (u == [] || u[0] < v[0] || (u[0] == v[0] && Before(u[1..], v[1..])))
  }

  ghost predicate InOrder(ws: seq<seq<nat>>) {
    forall i, j :: 0 <= i < j < |ws| ==> Before(ws[i], ws[j])
  }

  /** The enumeration is in depth-first order of the edges. */
  lemma {:induction false} WalksInOrder(a: Graph, t: TypeId, stack: seq<TypeId>)
    requires GraphOk(a) && t < |a|
    ensures InOrder(Walks(a, t, stack))
    decreases Free(a, stack), 1, 0
  {
    if t !in stack {
      FreeShrinks(a, stack, t);
      StepWalksInOrder(a, t, |a[t]|, stack + [t]);
      StepWalksDistinct(a, t, |a[t]|, stack + [t]);
      EmptyFirst(StepWalks(a, t, |a[t]|, stack + [t]), |a[t]|);
    }
  }

  lemma EmptyFirst(ws: seq<seq<nat>>, k: nat)
    requires InOrder(ws) && StartsBelow(ws, k)
    ensures InOrder([[]] + ws)
  {
    var all := [[]] + ws;
    forall i, j | 0 <= i < j < |all| ensures Before(all[i], all[j]) {
      assert all[j] == ws[j - 1];
      assert i > 0 ==> all[i] == ws[i - 1];
    }
  }

  lemma JoinInOrder(ws: seq<seq<nat>>, k: nat, tails: seq<seq<nat>>)
    requires InOrder(ws) && StartsBelow(ws, k) && InOrder(tails)
    ensures InOrder(ws + Prepend(k, tails))
  {
    var p := Prepend(k, tails);
    var all := ws + p;
    forall i, j | 0 <= i < j < |all| ensures Before(all[i], all[j]) {
      if j < |ws| {
        assert all[i] == ws[i] && all[j] == ws[j];
      } else {
        assert all[j] == [k] + tails[j - |ws|] && all[j][1..] == tails[j - |ws|];
        if i >= |ws| {
          assert all[i] == [k] + tails[i - |ws|] && all[i][1..] == tails[i - |ws|];
        }
      }
    }
  }

  lemma {:induction false} StepWalksInOrder(a: Graph, t: TypeId, k: nat, stack: seq<TypeId>)
    requires GraphOk(a) && t < |a| && k <= |a[t]|
    ensures InOrder(StepWalks(a, t, k, stack))
    decreases Free(a, stack), 2, k
  {
    if k > 0 {
      StepWalksInOrder(a, t, k - 1, stack);
      StepWalksDistinct(a, t, k - 1, stack);
      WalksInOrder(a, a[t][k - 1].target, stack);
      JoinInOrder(StepWalks(a, t, k - 1, stack), k - 1, Walks(a, a[t][k - 1].target, stack));
    }
  }

  // Every walk in ws starts with an edge before k.
  ghost predicate StartsBelow(ws: seq<seq<nat>>, k: nat) {
    forall i :: 0 <= i < |ws| ==> ws[i] != [] && ws[i][0] < k
  }

  lemma JoinDistinct(ws: seq<seq<nat>>, k: nat, tails: seq<seq<nat>>)
    requires NoRepeats(ws) && StartsBelow(ws, k) && NoRepeats(tails)
    ensures NoRepeats(ws + Prepend(k, tails)) && StartsBelow(ws + Prepend(k, tails), k + 1)
  {
    PrependDistinct(k, tails);
    NoRepeatsConcat(ws, Prepend(k, tails));
  }

  lemma {:induction false} StepWalksDistinct(a: Graph, t: TypeId, k: nat, stack: seq<TypeId>)
    requires GraphOk(a) && t < |a| && k <= |a[t]|
    ensures NoRepeats(StepWalks(a, t, k, stack)) && StartsBelow(StepWalks(a, t, k, stack), k)
    decreases Free(a, stack), 2, k
  {
    if k > 0 {
      StepWalksDistinct(a, t, k - 1, stack);
      WalksDistinct(a, a[t][k - 1].target, stack);
      JoinDistinct(StepWalks(a, t, k - 1, stack), k - 1, Walks(a, a[t][k - 1].target, stack));
    }
  }

  // ---- each record is the record of its walk

  // rs is the list of records of the walks ws from t.
  ghost predicate Lists(a: Graph, t: TypeId, path: seq<string>, ws: seq<seq<nat>>, rs: seq<(TypeId, string)>)
    requires GraphOk(a) && t < |a|
  {
    |rs| == |ws| && forall i :: 0 <= i < |ws| ==> IsWalk(a, t, ws[i]) && rs[i] == RecordOf(a, t, path, ws[i])
  }

  lemma RecordStep(a: Graph, t: TypeId, path: seq<string>, k: nat, w: seq<nat>)
    requires GraphOk(a) && t < |a| && k < |a[t]| && a[t][k].target < |a|
    requires IsWalk(a, a[t][k].target, w)
    ensures IsWalk(a, t, [k] + w)
    ensures RecordOf(a, t, path, [k] + w) == RecordOf(a, a[t][k].target, path + [a[t][k].tag], w)
  {
    var e := a[t][k];
    assert ([k] + w)[1..] == w;
    assert path + Labels(a, t, [k] + w) == path + [e.tag] + Labels(a, e.target, w);
  }

  lemma PrependLists(a: Graph, t: TypeId, path: seq<string>, k: nat, ws: seq<seq<nat>>, rs: seq<(TypeId, string)>)
    requires GraphOk(a) && t < |a| && k < |a[t]| && a[t][k].target < |a|
    requires Lists(a, a[t][k].target, path + [a[t][k].tag], ws, rs)
    ensures Lists(a, t, path, Prepend(k, ws), rs)
  {
    forall i | 0 <= i < |ws|
      ensures IsWalk(a, t, Prepend(k, ws)[i]) && rs[i] == RecordOf(a, t, path, Prepend(k, ws)[i])
    {
      RecordStep(a, t, path, k, ws[i]);
    }
  }

  lemma ConcatLists(a: Graph, t: TypeId, path: seq<string>,
                    ws: seq<seq<nat>>, rs: seq<(TypeId, string)>, ws': seq<seq<nat>>, rs': seq<(TypeId, string)>)
    requires GraphOk(a) && t < |a| && Lists(a, t, path, ws, rs) && Lists(a, t, path, ws', rs')
    ensures Lists(a, t, path, ws + ws', rs + rs')
  {
  }

  lemma {:induction false} RecordsList(a: Graph, t: TypeId, stack: seq<TypeId>, path: seq<string>)
    requires GraphOk(a) && t < |a|
    ensures Lists(a, t, path, Walks(a, t, stack), Records(a, t, stack, path))
    decreases Free(a, stack), 1, 0
  {
    if t !in stack {
      FreeShrinks(a, stack, t);
      var n := |a[t]|;
      StepRecordsList(a, t, n, stack + [t], path);
      assert a[t][..n] == a[t];
      assert Labels(a, t, []) == [] && path + [] == path;
      assert Lists(a, t, path, [[]], [(t, Join(path))]);
      ConcatLists(a, t, path, [[]], [(t, Join(path))],
                  StepWalks(a, t, n, stack + [t]), StepRecords(a, a[t], stack + [t], path));
    }
  }

  lemma {:induction false} StepRecordsList(a: Graph, t: TypeId, k: nat, stack: seq<TypeId>, path: seq<string>)
    requires GraphOk(a) && t < |a| && k <= |a[t]| && StepsOk(a, a[t])
    ensures Lists(a, t, path, StepWalks(a, t, k, stack), StepRecords(a, a[t][..k], stack, path))
    decreases Free(a, stack), 2, k
  {
    if k > 0 {
      StepRecordsList(a, t, k - 1, stack, path);
      var e := a[t][k - 1];
      assert a[t][..k][..k - 1] == a[t][..k - 1];
      RecordsList(a, e.target, stack, path + [e.tag]);
      PrependLists(a, t, path, k - 1, Walks(a, e.target, stack), Records(a, e.target, stack, path + [e.tag]));
      ConcatLists(a, t, path, StepWalks(a, t, k - 1, stack), StepRecords(a, a[t][..k - 1], stack, path),
                  Prepend(k - 1, Walks(a, e.target, stack)), Records(a, e.target, stack, path + [e.tag]));
    }
  }

  // The texts of the records are cut at the labels of their walks.
  ghost predicate Texts(a: Graph, t: TypeId, path: seq<string>, ws: seq<seq<nat>>, rs: seq<(TypeId, string)>)
    requires GraphOk(a) && t < |a|
  {
    && |rs| == |ws|
    && forall i :: 0 <= i < |ws| ==>
         IsWalk(a, t, ws[i]) && rs[i].0 == Visits(a, t, ws[i])[|ws[i]|] && CutAt(rs[i].1, path + Labels(a, t, ws[i]))
  }

  lemma ListsTexts(a: Graph, t: TypeId, path: seq<string>, ws: seq<seq<nat>>, rs: seq<(TypeId, string)>)
    requires GraphOk(a) && t < |a| && Lists(a, t, path, ws, rs)
    ensures Texts(a, t, path, ws, rs)
  {
    forall i | 0 <= i < |ws|
      ensures IsWalk(a, t, ws[i]) && rs[i].0 == Visits(a, t, ws[i])[|ws[i]|] && CutAt(rs[i].1, path + Labels(a, t, ws[i]))
    {
      assert rs[i] == RecordOf(a, t, path, ws[i]);
      JoinCut(path + Labels(a, t, ws[i]));
    }
  }

  /** The listing from t is, in depth-first order, one record for each simple path from t that avoids
      the stack, and for nothing else: the type it ends in, and the labels on its way, each after a
      slash. */
  lemma RecordsAreSimplePaths(a: Graph, t: TypeId, stack: seq<TypeId>, path: seq<string>)
    requires GraphOk(a) && t < |a|
    ensures exists ws: seq<seq<nat>> ::
      && NoRepeats(ws) && InOrder(ws)
      && (forall w :: w in ws <==> SimplePath(a, t, stack, w))
      && Texts(a, t, path, ws, Records(a, t, stack, path))
  {
    var ws := Walks(a, t, stack);
    WalksDistinct(a, t, stack);
    WalksInOrder(a, t, stack);
    RecordsList(a, t, stack, path);
    ListsTexts(a, t, path, ws, Records(a, t, stack, path));
    forall w ensures w in ws <==> SimplePath(a, t, stack, w) {
      WalksExact(a, t, stack, w);
    }
  }
}
