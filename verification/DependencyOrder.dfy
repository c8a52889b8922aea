/** The layered load order of the Python bindings (bindings/python/ns__init__.py): libraries are
    released in rounds, each round taking those whose dependencies are already loaded. */
module DependencyOrder {
  import opened Wrappers
  import opened Sequences

  type Lib = string
  type Dependencies = map<Lib, seq<Lib>>

  ghost predicate Closed(deps: Dependencies) {
    forall m, i :: m in deps && 0 <= i < |deps[m]| ==> deps[m][i] in deps
  }

  // A dependency chain: each library needs the next one.
  ghost predicate Chain(deps: Dependencies, c: seq<Lib>) {
    && c != []
    && (forall i :: 0 <= i < |c| ==> c[i] in deps)
    && (forall i :: 0 <= i < |c| - 1 ==> c[i + 1] in deps[c[i]])
  }

  ghost predicate Acyclic(deps: Dependencies) {
    forall c :: Chain(deps, c) && |c| > 1 ==> c[0] != c[|c| - 1]
  }

  // Some chain from m has k links.
  ghost predicate HasChain(deps: Dependencies, m: Lib, k: nat) {
    exists c :: Chain(deps, c) && c[0] == m && |c| == k + 1
  }

  /** The longest dependency chain from m has exactly k links. */
  ghost predicate LongestChain(deps: Dependencies, m: Lib, k: nat) {
    HasChain(deps, m, k) && forall c :: Chain(deps, c) && c[0] == m ==> |c| <= k + 1
  }

  predicate Loadable(deps: Dependencies, m: Lib, current: seq<Lib>)
    requires m in deps
  {
    forall i :: 0 <= i < |deps[m]| ==> deps[m][i] in current
  }

  // ---- chains

  lemma ChainZero(deps: Dependencies, m: Lib)
    requires m in deps
    ensures HasChain(deps, m, 0)
  {
    assert Chain(deps, [m]);
  }

  lemma ChainStep(deps: Dependencies, m: Lib, k: nat)
    requires m in deps
    ensures HasChain(deps, m, k + 1) <==> exists d :: d in deps[m] && d in deps && HasChain(deps, d, k)
  {
    if HasChain(deps, m, k + 1) {
      var c :| Chain(deps, c) && c[0] == m && |c| == k + 2;
      assert Chain(deps, c[1..]) && c[1..][0] == c[1];
      assert c[1] in deps[m] && HasChain(deps, c[1], k);
    }
    if d :| d in deps[m] && d in deps && HasChain(deps, d, k) {
      var c :| Chain(deps, c) && c[0] == d && |c| == k + 1;
      assert Chain(deps, [m] + c);
    }
  }

  lemma ChainShorter(deps: Dependencies, m: Lib, k: nat)
    requires HasChain(deps, m, k + 1)
    ensures HasChain(deps, m, k)
  {
    var c :| Chain(deps, c) && c[0] == m && |c| == k + 2;
    assert Chain(deps, c[..k + 1]);
  }

  lemma PrefixChain(deps: Dependencies, c: seq<Lib>, k: nat)
    ensures Chain(deps, c) && |c| > k ==> HasChain(deps, c[0], k)
  {
    if Chain(deps, c) && |c| > k {
      assert Chain(deps, c[..k + 1]) && c[..k + 1][0] == c[0];
    }
  }

  lemma LongestMeans(deps: Dependencies, m: Lib, k: nat)
    ensures LongestChain(deps, m, k) <==> HasChain(deps, m, k) && !HasChain(deps, m, k + 1)
  {
    forall c | Chain(deps, c) && c[0] == m ensures |c| > k + 1 ==> HasChain(deps, m, k + 1) {
      PrefixChain(deps, c, k + 1);
    }
  }

  /** Every dependency of a library has a strictly shorter longest chain. */
  lemma DependenciesEarlier(deps: Dependencies, m: Lib, k: nat, d: Lib, j: nat)
    requires m in deps && d in deps[m] && d in deps
    requires LongestChain(deps, m, k) && LongestChain(deps, d, j)
    ensures j < k
  {
    ChainStep(deps, m, j);
    assert HasChain(deps, m, j + 1);
  }

  // A sequence longer than the set it draws from repeats an element.
  lemma {:induction false} Pigeonhole(c: seq<Lib>, s: set<Lib>) returns (i: nat, j: nat)
    requires |c| > |s| && forall k :: 0 <= k < |c| ==> c[k] in s
    ensures i < j < |c| && c[i] == c[j]
    decreases |c|
  {
    var last := c[|c| - 1];
    if k :| 0 <= k < |c| - 1 && c[k] == last {
      return k, |c| - 1;
    }
    i, j := Pigeonhole(c[..|c| - 1], s - {last});
  }

  // A chain longer than the number of libraries contains a cycle.
  lemma LongChainCycles(deps: Dependencies, c: seq<Lib>)
    requires Chain(deps, c) && |c| > |deps|
    ensures !Acyclic(deps)
  {
    var i, j := Pigeonhole(c, deps.Keys);
    var cycle := c[i..j + 1];
    assert Chain(deps, cycle) && |cycle| > 1 && cycle[0] == cycle[|cycle| - 1];
  }

  lemma AcyclicBound(deps: Dependencies, m: Lib)
    ensures HasChain(deps, m, |deps|) ==> !Acyclic(deps)
  {
    if HasChain(deps, m, |deps|) {
      var c :| Chain(deps, c) && c[0] == m && |c| == |deps| + 1;
      LongChainCycles(deps, c);
    }
  }

  // If every library with a k-link chain has a longer one, chains grow without end.
  lemma {:induction false} ChainsGrow(deps: Dependencies, m: Lib, k: nat, n: nat)
    requires forall o :: o in deps && HasChain(deps, o, k) ==> HasChain(deps, o, k + 1)
    requires m in deps && HasChain(deps, m, k) && k <= n
    ensures HasChain(deps, m, n)
    decreases n
  {
    if k < n {
      ChainStep(deps, m, k);
      assert HasChain(deps, m, k + 1);
      var d :| d in deps[m] && d in deps && HasChain(deps, d, k);
      ChainsGrow(deps, d, k, n - 1);
      ChainStep(deps, m, n - 1);
    }
  }

  lemma AlwaysLongerCycles(deps: Dependencies, m: Lib, k: nat)
    requires m in deps && HasChain(deps, m, k)
    requires forall o :: o in deps && HasChain(deps, o, k) ==> HasChain(deps, o, k + 1)
    ensures !Acyclic(deps)
  {
    var n := if k <= |deps| then |deps| else k;
    ChainsGrow(deps, m, k, n);
    Shorten(deps, m, |deps|, n);
    AcyclicBound(deps, m);
  }

  /** Some library among those left can always be loaded next. */
  lemma SomeLongest(deps: Dependencies, m: Lib, k: nat)
    requires Acyclic(deps) && m in deps && HasChain(deps, m, k)
    ensures exists o :: o in deps && HasChain(deps, o, k) && !HasChain(deps, o, k + 1)
  {
    if forall o :: o in deps && HasChain(deps, o, k) ==> HasChain(deps, o, k + 1) {
      AlwaysLongerCycles(deps, m, k);
    }
  }

  lemma {:induction false} Shorten(deps: Dependencies, m: Lib, k: nat, n: nat)
    requires k <= n && HasChain(deps, m, n)
    ensures HasChain(deps, m, k)
    decreases n
  {
    if k < n {
      ChainShorter(deps, m, n - 1);
      Shorten(deps, m, k, n - 1);
    }
  }

  // ---- the order

  // The libraries of s that satisfy a test, in order.
  ghost function Keep(s: seq<Lib>, t: set<Lib>): seq<Lib> {
    if s == [] then [] else Keep(s[..|s| - 1], t) + (if s[|s| - 1] in t then [s[|s| - 1]] else [])
  }

  /** The kept libraries stay in the order of the list. */
  lemma {:induction false} KeepInOrder(a: seq<Lib>, b: seq<Lib>, t: set<Lib>)
    ensures Keep(a + b, t) == Keep(a, t) + Keep(b, t)
    decreases |b|
  {
    if b == [] {
      assert a + b == a;
    } else {
      assert (a + b)[..|a + b| - 1] == a + b[..|b| - 1];
      KeepInOrder(a, b[..|b| - 1], t);
    }
  }

  lemma {:induction false} KeepMembers(s: seq<Lib>, t: set<Lib>, m: Lib)
    ensures m in Keep(s, t) <==> m in s && m in t
  {
    if s != [] {
      KeepMembers(s[..|s| - 1], t, m);
    }
  }

  lemma {:induction false} KeepNoRepeats(s: seq<Lib>, t: set<Lib>)
    requires NoRepeats(s)
    ensures NoRepeats(Keep(s, t))
  {
    if s != [] {
      var init := s[..|s| - 1];
      KeepNoRepeats(init, t);
      KeepMembers(init, t, s[|s| - 1]);
    }
  }

  ghost function LoadableSet(deps: Dependencies, pending: seq<Lib>, current: seq<Lib>): set<Lib> {
    set m | m in pending && m in deps && Loadable(deps, m, current)
  }

  method ModulesThatCanBeLoaded(deps: Dependencies, pending: seq<Lib>, current: seq<Lib>) returns (modules: seq<Lib>)
    requires forall m :: m in pending ==> m in deps
    ensures modules == Keep(pending, LoadableSet(deps, pending, current))
  {
    modules := [];
    ghost var t := LoadableSet(deps, pending, current);
    for i := 0 to |pending|
      invariant modules == Keep(pending[..i], t)
    {
      assert pending[..i + 1][..i] == pending[..i];
      var canBeLoaded := AllIn(deps[pending[i]], current);
      assert canBeLoaded <==> pending[i] in t;
      if canBeLoaded {
        modules := modules + [pending[i]];
      }
    }
    assert pending[..|pending|] == pending;
  }

  method AllIn(needed: seq<Lib>, current: seq<Lib>) returns (all: bool)
    ensures all <==> forall i :: 0 <= i < |needed| ==> needed[i] in current
  {
    all := true;
    for i := 0 to |needed|
      invariant forall k :: 0 <= k < i ==> needed[k] in current
    {
      if needed[i] !in current {
        return false;
      }
    }
  }

  // list.remove: the first occurrence goes.
  function Remove(s: seq<Lib>, m: Lib): seq<Lib> {
    if s == [] then [] else if s[0] == m then s[1..] else [s[0]] + Remove(s[1..], m)
  }

  lemma {:induction false} RemoveMembers(s: seq<Lib>, m: Lib)
    requires NoRepeats(s)
    ensures NoRepeats(Remove(s, m))
    ensures forall o :: o in Remove(s, m) <==> o in s && o != m
    ensures m in s ==> |Remove(s, m)| == |s| - 1
  {
    if s != [] {
      assert forall o :: o in s <==> o == s[0] || o in s[1..];
      assert s[0] !in s[1..];
      if s[0] != m {
        RemoveMembers(s[1..], m);
      }
    }
  }

  // ---- what is left after each round, on any graph

  /** The libraries left after k rounds, on any graph. */
  ghost function Left(deps: Dependencies, k: nat): set<Lib> {
    if k == 0 then deps.Keys
    else set m | m in Left(deps, k - 1) && m in deps && Waits(deps, m, Left(deps, k - 1))
  }

  // m has a dependency that is not loaded: left over, or not a library at all.
  ghost predicate Waits(deps: Dependencies, m: Lib, left: set<Lib>)
    requires m in deps
  {
    exists i :: 0 <= i < |deps[m]| && (deps[m][i] !in deps || deps[m][i] in left)
  }

  lemma {:induction false} LeftByChain(deps: Dependencies, k: nat, m: Lib)
    requires Closed(deps)
    ensures m in Left(deps, k) <==> m in deps && HasChain(deps, m, k)
  {
    if k == 0 {
      if m in deps {
        ChainZero(deps, m);
      }
    } else {
      LeftByChain(deps, k - 1, m);
      if m in deps {
        ChainStep(deps, m, k - 1);
        forall d ensures d in Left(deps, k - 1) <==> d in deps && HasChain(deps, d, k - 1) {
          LeftByChain(deps, k - 1, d);
        }
        if HasChain(deps, m, k) {
          ChainShorter(deps, m, k - 1);
          var d :| d in deps[m] && d in deps && HasChain(deps, d, k - 1);
          var i :| 0 <= i < |deps[m]| && deps[m][i] == d;
          assert Waits(deps, m, Left(deps, k - 1));
        }
      }
    }
  }

  // A set in which every library waits for another of the set, or for a missing one, never shrinks.
  lemma {:induction false} StuckForever(deps: Dependencies, stuck: set<Lib>, k: nat)
    requires stuck <= deps.Keys && forall m :: m in stuck ==> Waits(deps, m, stuck)
    ensures stuck <= Left(deps, k)
  {
    if k > 0 {
      StuckForever(deps, stuck, k - 1);
      forall m | m in stuck ensures m in Left(deps, k) {
        var i :| 0 <= i < |deps[m]| && (deps[m][i] !in deps || deps[m][i] in stuck);
        assert Waits(deps, m, Left(deps, k - 1));
      }
    }
  }

  lemma CycleStuck(deps: Dependencies, c: seq<Lib>)
    requires Chain(deps, c) && |c| > 1 && c[0] == c[|c| - 1]
    ensures var stuck := set m | m in c; stuck <= deps.Keys && forall m :: m in stuck ==> Waits(deps, m, stuck)
  {
    var stuck := set m | m in c;
    forall m | m in stuck ensures m in deps && Waits(deps, m, stuck) {
      var p :| 0 <= p < |c| && c[p] == m;
      var q := if p == |c| - 1 then 0 else p;
      assert c[q] == m && c[q + 1] in deps[m];
      var i :| 0 <= i < |deps[m]| && deps[m][i] == c[q + 1];
      assert deps[m][i] in stuck;
    }
  }

  lemma MissingStuck(deps: Dependencies, m: Lib, i: nat)
    requires m in deps && i < |deps[m]| && deps[m][i] !in deps
    ensures Waits(deps, m, {m})
  {
  }

  /** Something is always left off the closed, acyclic graphs, and nothing after as many rounds as
      there are libraries on them. */
  lemma EndsExactlyOnAcyclicClosed(deps: Dependencies)
    ensures Closed(deps) && Acyclic(deps) ==> Left(deps, |deps|) == {}
    ensures !(Closed(deps) && Acyclic(deps)) ==> forall k: nat :: Left(deps, k) != {}
  {
    if Closed(deps) && Acyclic(deps) {
      forall m ensures m !in Left(deps, |deps|) {
        LeftByChain(deps, |deps|, m);
        AcyclicBound(deps, m);
      }
      assert Left(deps, |deps|) == {};
    }
    if !Closed(deps) {
      var m, i :| m in deps && 0 <= i < |deps[m]| && deps[m][i] !in deps;
      MissingStuck(deps, m, i);
      forall k: nat ensures m in Left(deps, k) {
        StuckForever(deps, {m}, k);
      }
    }
    if !Acyclic(deps) {
      var c :| Chain(deps, c) && |c| > 1 && c[0] == c[|c| - 1];
      CycleStuck(deps, c);
      assert c[0] in c;
      forall k: nat ensures c[0] in Left(deps, k) {
        StuckForever(deps, (set m | m in c), k);
      }
    }
  }


  lemma LeftShrinks(deps: Dependencies, k: nat)
    ensures Left(deps, k + 1) <= Left(deps, k)
  {
  }

  lemma {:induction false} LeftEmptyStays(deps: Dependencies, k: nat, n: nat)
    requires Left(deps, k) == {} && k <= n
    ensures Left(deps, n) == {}
  {
    if k < n {
      LeftEmptyStays(deps, k, n - 1);
    }
  }

  // The libraries that round k releases.
  ghost predicate ReleasedIn(deps: Dependencies, k: nat, m: Lib) {
    m in Left(deps, k) && m !in Left(deps, k + 1)
  }

  /** On a closed graph round k releases exactly the libraries whose longest chain has k links. */
  lemma ReleasedByChain(deps: Dependencies, k: nat, m: Lib)
    requires Closed(deps)
    ensures ReleasedIn(deps, k, m) <==> m in deps && LongestChain(deps, m, k)
  {
    LeftByChain(deps, k, m);
    LeftByChain(deps, k + 1, m);
    LongestMeans(deps, m, k);
    if m in deps && HasChain(deps, m, k + 1) {
      ChainShorter(deps, m, k);
    }
  }

  // ---- the rounds, on any graph

  /** What holds when round k begins: the libraries left are pending, all others are current. */
  ghost predicate RoundOk(deps: Dependencies, pending: seq<Lib>, current: seq<Lib>, k: nat) {
    && NoRepeats(pending) && NoRepeats(current)
    && (forall m :: m in pending <==> m in Left(deps, k))
    && (forall m :: m in current <==> m in deps && m !in Left(deps, k))
  }

  lemma EndsWithin(deps: Dependencies, depth: nat)
    ensures Closed(deps) && Acyclic(deps) && depth >= |deps| ==> Left(deps, depth) == {}
    ensures !(Closed(deps) && Acyclic(deps)) ==> Left(deps, depth) != {}
  {
    EndsExactlyOnAcyclicClosed(deps);
    if Closed(deps) && Acyclic(deps) && depth >= |deps| {
      LeftEmptyStays(deps, |deps|, depth);
    }
  }

  lemma {:induction false} LeftAreLibraries(deps: Dependencies, k: nat)
    ensures Left(deps, k) <= deps.Keys
  {
    if k > 0 {
      LeftAreLibraries(deps, k - 1);
    }
  }

  lemma RoundStarts(deps: Dependencies, libs: seq<Lib>)
    requires NoRepeats(libs) && forall m :: m in libs <==> m in deps
    ensures RoundOk(deps, libs, [], 0)
  {
  }

  /** In round k exactly the libraries released in it are loadable. */
  lemma RoundLoads(deps: Dependencies, pending: seq<Lib>, current: seq<Lib>, k: nat, m: Lib)
    requires RoundOk(deps, pending, current, k)
    ensures m in LoadableSet(deps, pending, current) <==> ReleasedIn(deps, k, m)
  {
    LeftAreLibraries(deps, k);
    if m in Left(deps, k) {
      if m in Left(deps, k + 1) {
        var i :| 0 <= i < |deps[m]| && (deps[m][i] !in deps || deps[m][i] in Left(deps, k));
        assert deps[m][i] !in current;
      } else {
        forall i | 0 <= i < |deps[m]| ensures deps[m][i] in current {
          assert !(deps[m][i] !in deps || deps[m][i] in Left(deps, k));
        }
      }
    }
  }

  /** On a closed, acyclic graph every round that has something left releases something. */
  lemma RoundProgress(deps: Dependencies, k: nat)
    requires Closed(deps) && Acyclic(deps) && Left(deps, k) != {}
    ensures exists m :: ReleasedIn(deps, k, m)
  {
    var m :| m in Left(deps, k);
    LeftByChain(deps, k, m);
    SomeLongest(deps, m, k);
    var o :| o in deps && HasChain(deps, o, k) && !HasChain(deps, o, k + 1);
    LongestMeans(deps, o, k);
    ReleasedByChain(deps, k, o);
  }

  // The libraries a round takes: each once, exactly those released in it.
  lemma RoundFacts(deps: Dependencies, pending: seq<Lib>, current: seq<Lib>, k: nat, modules: seq<Lib>)
    requires RoundOk(deps, pending, current, k)
    requires modules == Keep(pending, LoadableSet(deps, pending, current))
    ensures NoRepeats(modules)
    ensures forall m :: m in modules <==> ReleasedIn(deps, k, m)
    ensures forall m :: m in modules ==> m in pending
  {
    KeepNoRepeats(pending, LoadableSet(deps, pending, current));
    forall m ensures m in modules <==> ReleasedIn(deps, k, m) {
      KeepMembers(pending, LoadableSet(deps, pending, current), m);
      RoundLoads(deps, pending, current, k, m);
    }
  }

  lemma RoundEnds(deps: Dependencies, pending: seq<Lib>, current: seq<Lib>, k: nat, modules: seq<Lib>,
                  pending': seq<Lib>, current': seq<Lib>)
    requires RoundOk(deps, pending, current, k)
    requires NoRepeats(modules) && forall m :: m in modules <==> ReleasedIn(deps, k, m)
    requires NoRepeats(pending') && forall m :: m in pending' <==> m in pending && m !in modules
    requires current' == current + modules
    ensures RoundOk(deps, pending', current', k + 1)
  {
    LeftShrinks(deps, k);
    LeftAreLibraries(deps, k);
    forall m ensures m in current' <==> m in deps && m !in Left(deps, k + 1) {
      assert m in current' <==> m in current || m in modules;
    }
    NoRepeatsConcat(current, modules);
  }

  /** The steps recorded before round k hold what each round released, each library once. */
  ghost predicate StepsOk(steps: map<nat, seq<Lib>>, deps: Dependencies, k: nat) {
    && (forall i: nat :: i in steps <==> i < k)
    && (forall i: nat, m :: i < k ==> (m in steps[i] <==> ReleasedIn(deps, i, m)))
    && (forall i: nat :: i < k ==> NoRepeats(steps[i]))
  }

  lemma StepsGrow(steps: map<nat, seq<Lib>>, deps: Dependencies, k: nat, modules: seq<Lib>)
    requires StepsOk(steps, deps, k)
    requires NoRepeats(modules) && forall m :: m in modules <==> ReleasedIn(deps, k, m)
    ensures StepsOk(steps[k := modules], deps, k + 1)
  {
  }

  /** The lists that the recursion shares and changes in place. */
  class Loader {
    var pending: seq<Lib>
    var current: seq<Lib>
    var steps: map<nat, seq<Lib>>

    constructor (libs: seq<Lib>)
      ensures pending == libs && current == [] && steps == map[]
    {
      pending, current, steps := libs, [], map[];
    }

    // One round: the loadable libraries move from pending to current and into the step.
    method LoadRound(deps: Dependencies, modules: seq<Lib>, k: nat)
      requires NoRepeats(pending) && NoRepeats(modules) && k in steps && steps[k] == []
      requires forall m :: m in modules ==> m in pending
      modifies this
      ensures NoRepeats(pending) && |pending| == old(|pending|) - |modules|
      ensures forall m :: m in pending <==> m in old(pending) && m !in modules
      ensures current == old(current) + modules
      ensures steps == old(steps)[k := modules]
    {
      for i := 0 to |modules|
        invariant NoRepeats(pending) && |pending| == old(|pending|) - i
        invariant forall m :: m in pending <==> m in old(pending) && m !in modules[..i]
        invariant current == old(current) + modules[..i]
        invariant steps == old(steps)[k := modules[..i]]
      {
        steps := steps[k := steps[k] + [modules[i]]];
        assert modules[i] in pending;
        RemoveMembers(pending, modules[i]);
        pending := Remove(pending, modules[i]);
        current := current + [modules[i]];
        assert modules[..i + 1] == modules[..i] + [modules[i]];
      }
      assert modules[..|modules|] == modules;
    }

    // One round of the recursion, on any graph.
    method Round(deps: Dependencies, k: nat)
      requires RoundOk(deps, pending, current, k) && StepsOk(steps, deps, k)
      modifies this
      ensures RoundOk(deps, pending, current, k + 1) && StepsOk(steps, deps, k + 1)
    {
      ghost var before := steps;
      if k !in steps {
        steps := steps[k := []];
      }
      LeftAreLibraries(deps, k);
      var modules := ModulesThatCanBeLoaded(deps, pending, current);
      RoundFacts(deps, pending, current, k, modules);
      ghost var p, c := pending, current;
      LoadRound(deps, modules, k);
      assert steps == before[k := modules];
      StepsGrow(before, deps, k, modules);
      RoundEnds(deps, p, c, k, modules, pending, current);
    }

    /** The recursion, of which the interpreter allows `depth` more levels. On every graph it ends
        within them exactly when nothing is left after as many rounds, and then step i holds
        exactly what round i released. */
    method Order(deps: Dependencies, k: nat, depth: nat) returns (ended: bool, ghost n: nat)
      requires RoundOk(deps, pending, current, k) && StepsOk(steps, deps, k)
      modifies this
      ensures ended <==> Left(deps, k + depth) == {}
      ensures ended ==> k <= n && Left(deps, n) == {} && StepsOk(steps, deps, n)
      decreases depth
    {
      if |pending| == 0 {
        assert Left(deps, k) == {};
        LeftEmptyStays(deps, k, k + depth);
        return true, k;
      }
      assert pending[0] in pending;
      if depth == 0 {
        return false, k;
      }
      Round(deps, k);
      ended, n := Order(deps, k + 1, depth - 1);
    }
  }

  // ---- the flattened order

  ghost predicate DependenciesFirst(deps: Dependencies, s: seq<Lib>) {
    forall p, d :: 0 <= p < |s| && s[p] in deps && d in deps[s[p]] ==> d in s[..p]
  }

  // s holds the libraries released before round i, dependencies first.
  ghost predicate Placed(deps: Dependencies, s: seq<Lib>, i: nat) {
    && NoRepeats(s)
    && (forall m :: m in s <==> m in deps && m !in Left(deps, i))
    && DependenciesFirst(deps, s)
  }

  lemma PlaceNext(deps: Dependencies, s: seq<Lib>, i: nat, layer: seq<Lib>)
    requires Placed(deps, s, i) && NoRepeats(layer)
    requires forall m :: m in layer <==> ReleasedIn(deps, i, m)
    ensures Placed(deps, s + layer, i + 1)
  {
    var r := s + layer;
    LeftShrinks(deps, i);
    LeftAreLibraries(deps, i);
    forall m ensures m in r <==> m in deps && m !in Left(deps, i + 1) {
      assert m in r <==> m in s || m in layer;
    }
    NoRepeatsConcat(s, layer);
    forall p, d | 0 <= p < |r| && r[p] in deps && d in deps[r[p]] ensures d in r[..p] {
      if p < |s| {
        assert r[p] == s[p] && r[..p] == s[..p];
      } else {
        assert r[p] in layer;
        ReleasedHasAll(deps, i, r[p], d);
        assert r[..p] == s + layer[..p - |s|];
      }
    }
  }

  lemma ReleasedHasAll(deps: Dependencies, k: nat, m: Lib, d: Lib)
    requires ReleasedIn(deps, k, m) && m in deps && d in deps[m]
    ensures d in deps && d !in Left(deps, k)
  {
    var i :| 0 <= i < |deps[m]| && deps[m][i] == d;
    assert !Waits(deps, m, Left(deps, k));
  }

  /** sort_to_dependencies with an interpreter that allows `depth` levels of recursion, on every
      graph: it succeeds on every closed, acyclic graph once the depth reaches the number of
      libraries, and on no other graph at any depth; a result holds every library exactly once,
      each after all its dependencies. */
  method SortToDependencies(deps: Dependencies, libs: seq<Lib>, depth: nat) returns (sorted: Option<seq<Lib>>)
    requires NoRepeats(libs) && forall m :: m in libs <==> m in deps
    ensures sorted.Some? <==> Left(deps, depth) == {}
    ensures Closed(deps) && Acyclic(deps) && depth >= |deps| ==> sorted.Some?
    ensures !(Closed(deps) && Acyclic(deps)) ==> sorted.None?
    ensures sorted.Some? ==> NoRepeats(sorted.value) && forall m :: m in sorted.value <==> m in deps
    ensures sorted.Some? ==> DependenciesFirst(deps, sorted.value)
  {
    EndsWithin(deps, depth);
    var loader := new Loader(libs);
    RoundStarts(deps, libs);
    ghost var n: nat;
    var ended;
    ended, n := loader.Order(deps, 0, depth);
    if !ended {
      return None;
    }
    var order := Flatten(deps, loader.steps, n);
    sorted := Some(order);
  }

  // The loop over the steps in the order of their numbers.
  method Flatten(deps: Dependencies, steps: map<nat, seq<Lib>>, ghost n: nat) returns (order: seq<Lib>)
    requires StepsOk(steps, deps, n)
    ensures Placed(deps, order, n)
  {
    order := [];
    var i := 0;
    while i in steps
      invariant i <= n
      invariant Placed(deps, order, i)
      decreases n - i
    {
      PlaceNext(deps, order, i, steps[i]);
      order := order + steps[i];
      i := i + 1;
    }
  }
}
