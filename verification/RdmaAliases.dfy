/** The RDMA option names that have an older spelling (webui/options.py): every alias is replaced by
    its canonical name, and two different values for the two names are refused. */
module RdmaAliases {
  import opened Wrappers
  import opened Sequences
  import opened ConfigText
  import opened Dictionary

  datatype Alias = Alias(name: string, canonical: string)

  // No name occurs twice, on either side or across the two.
  predicate TableOk(t: seq<Alias>) {
    && (forall i, j :: 0 <= i < j < |t| ==> t[i].name != t[j].name && t[i].canonical != t[j].canonical)
    && (forall i, j :: 0 <= i < |t| && 0 <= j < |t| ==> t[i].name != t[j].canonical)
  }

  /** The two names of a pair have different texts. */
  predicate Conflict<V>(a: Alias, es: seq<Entry<V>>, str: V -> string) {
    && Find(es, a.name).Some? && Find(es, a.canonical).Some?
    && str(Find(es, a.canonical).value) != str(Find(es, a.name).value)
  }

  /** Two names of one option with two texts are a conflict, one text or one name is none. */
  lemma ConflictMeans<V>(a: Alias, x: V, y: V, str: V -> string)
    requires a.name != a.canonical
    ensures Conflict(a, [Entry(a.name, x), Entry(a.canonical, y)], str) <==> str(x) != str(y)
    ensures !Conflict(a, [Entry(a.name, x)], str) && !Conflict(a, [Entry(a.canonical, y)], str)
  {
    var both, one, other := [Entry(a.name, x), Entry(a.canonical, y)], [Entry(a.name, x)], [Entry(a.canonical, y)];
    assert both[1..] == other && other[1..] == [] && one[1..] == [];
    assert Find(one, a.canonical) == None && Find(other, a.name) == None;
    assert Find(both, a.name) == Some(x) && Find(both, a.canonical) == Find(other, a.canonical) == Some(y);
  }

  function Renamed<V>(a: Alias, es: seq<Entry<V>>): seq<Entry<V>> {
    if Find(es, a.name).None? then es else Put(Remove(es, a.name), a.canonical, Find(es, a.name).value)
  }

  /** The dictionary after the first n pairs of the table. */
  function NormalizedTo<V>(t: seq<Alias>, n: nat, es: seq<Entry<V>>): seq<Entry<V>>
    requires n <= |t|
  {
    if n == 0 then es else Renamed(t[n - 1], NormalizedTo(t, n - 1, es))
  }

  function Normalized<V>(t: seq<Alias>, es: seq<Entry<V>>): seq<Entry<V>> {
    NormalizedTo(t, |t|, es)
  }

  predicate AnyConflict<V>(t: seq<Alias>, es: seq<Entry<V>>, str: V -> string) {
    exists i :: 0 <= i < |t| && Conflict(t[i], es, str)
  }

  lemma FindRenamed<V>(a: Alias, es: seq<Entry<V>>, k: string)
    requires a.name != a.canonical
    ensures Find(Renamed(a, es), k) ==
      if k == a.name then None
      else if k == a.canonical && Find(es, a.name).Some? then Find(es, a.name)
      else Find(es, k)
  {
    if Find(es, a.name).Some? {
      FindPut(Remove(es, a.name), a.canonical, Find(es, a.name).value, k);
      FindRemove(es, a.name, k);
    }
  }

  lemma RenamedDistinct<V>(a: Alias, es: seq<Entry<V>>)
    requires Distinct(es)
    ensures Distinct(Renamed(a, es))
  {
    if Find(es, a.name).Some? {
      RemoveDistinct(es, a.name);
      PutDistinct(Remove(es, a.name), a.canonical, Find(es, a.name).value);
    }
  }

  // ---- the value each name ends up with

  function Preferred<V>(es: seq<Entry<V>>, a: Alias): Option<V> {
    if Find(es, a.name).Some? then Find(es, a.name) else Find(es, a.canonical)
  }

  lemma {:induction false} FindOther<V>(t: seq<Alias>, n: nat, es: seq<Entry<V>>, k: string)
    requires n <= |t| && TableOk(t)
    requires forall i :: 0 <= i < n ==> t[i].name != k && t[i].canonical != k
    ensures Find(NormalizedTo(t, n, es), k) == Find(es, k)
  {
    if n > 0 {
      FindOther(t, n - 1, es, k);
      FindRenamed(t[n - 1], NormalizedTo(t, n - 1, es), k);
    }
  }

  lemma {:induction false} FindAlias<V>(t: seq<Alias>, n: nat, es: seq<Entry<V>>, i: nat)
    requires i < n <= |t| && TableOk(t)
    ensures Find(NormalizedTo(t, n, es), t[i].name) == None
    ensures Find(NormalizedTo(t, n, es), t[i].canonical) == Preferred(es, t[i])
  {
    var before := NormalizedTo(t, n - 1, es);
    FindRenamed(t[n - 1], before, t[i].name);
    FindRenamed(t[n - 1], before, t[i].canonical);
    if i < n - 1 {
      FindAlias(t, n - 1, es, i);
    } else {
      FindOther(t, i, es, t[i].name);
      FindOther(t, i, es, t[i].canonical);
    }
  }

  /** No alias is left, each canonical name has the alias's value if there was one, and every other
      name keeps its value. */
  lemma NormalizedMeans<V>(t: seq<Alias>, es: seq<Entry<V>>, k: string)
    requires TableOk(t)
    ensures forall i :: 0 <= i < |t| ==> Find(Normalized(t, es), t[i].name) == None
    ensures forall i :: 0 <= i < |t| ==>
      Find(Normalized(t, es), t[i].canonical) == Preferred(es, t[i])
    ensures (forall i :: 0 <= i < |t| ==> t[i].name != k && t[i].canonical != k) ==>
      Find(Normalized(t, es), k) == Find(es, k)
  {
    forall i | 0 <= i < |t|
      ensures Find(Normalized(t, es), t[i].name) == None
      ensures Find(Normalized(t, es), t[i].canonical) == Preferred(es, t[i])
    {
      FindAlias(t, |t|, es, i);
    }
    if forall i :: 0 <= i < |t| ==> t[i].name != k && t[i].canonical != k {
      FindOther(t, |t|, es, k);
    }
  }

  lemma {:induction false} NothingToRename<V>(t: seq<Alias>, n: nat, es: seq<Entry<V>>)
    requires n <= |t| && forall i :: 0 <= i < |t| ==> Find(es, t[i].name) == None
    ensures NormalizedTo(t, n, es) == es
  {
    if n > 0 {
      NothingToRename(t, n - 1, es);
    }
  }

  /** Normalising again changes nothing, not even the order, and finds no conflict. */
  lemma NormalizedTwice<V>(t: seq<Alias>, es: seq<Entry<V>>, str: V -> string)
    requires TableOk(t)
    ensures Normalized(t, Normalized(t, es)) == Normalized(t, es)
    ensures !AnyConflict(t, Normalized(t, es), str)
  {
    NormalizedMeans(t, es, "");
    NothingToRename(t, |t|, Normalized(t, es));
  }

  lemma {:induction false} NormalizedDistinct<V>(t: seq<Alias>, n: nat, es: seq<Entry<V>>)
    requires n <= |t| && Distinct(es)
    ensures Distinct(NormalizedTo(t, n, es))
  {
    if n > 0 {
      NormalizedDistinct(t, n - 1, es);
      RenamedDistinct(t[n - 1], NormalizedTo(t, n - 1, es));
    }
  }

  // Earlier pairs of the table do not touch the names of a later one.
  lemma ConflictStays<V>(t: seq<Alias>, n: nat, es: seq<Entry<V>>, str: V -> string)
    requires n < |t| && TableOk(t)
    ensures Conflict(t[n], NormalizedTo(t, n, es), str) <==> Conflict(t[n], es, str)
  {
    FindOther(t, n, es, t[n].name);
    FindOther(t, n, es, t[n].canonical);
  }

  predicate NoConflictTo<V>(t: seq<Alias>, n: nat, es: seq<Entry<V>>, str: V -> string) {
    forall i :: 0 <= i < n <= |t| ==> !Conflict(t[i], es, str)
  }

  lemma NoConflictStep<V>(t: seq<Alias>, n: nat, es: seq<Entry<V>>, str: V -> string)
    requires n < |t| && TableOk(t) && NoConflictTo(t, n, es, str)
    ensures Conflict(t[n], NormalizedTo(t, n, es), str) ==> AnyConflict(t, es, str)
    ensures !Conflict(t[n], NormalizedTo(t, n, es), str) ==> NoConflictTo(t, n + 1, es, str)
  {
    ConflictStays(t, n, es, str);
  }

  /** normalize_rdma_values. */
  method NormalizeValues<V>(t: seq<Alias>, values: seq<Entry<V>>, str: V -> string) returns (r: Option<seq<Entry<V>>>)
    requires TableOk(t) && Distinct(values)
    ensures r == if AnyConflict(t, values, str) then None else Some(Normalized(t, values))
    ensures r.Some? ==> Distinct(r.value)
  {
    var result := values;
    var n := 0;
    NormalizedDistinct(t, |t|, values);
    while n < |t|
      invariant 0 <= n <= |t|
      invariant result == NormalizedTo(t, n, values)
      invariant NoConflictTo(t, n, values, str)
    {
      ghost var before := result;
      NoConflictStep(t, n, values, str);
      var a := t[n];
      var given := Find(result, a.name);
      if given.Some? {
        var other := Find(result, a.canonical);
        if other.Some? && str(other.value) != str(given.value) {
          assert Conflict(a, before, str);
          return None;
        }
        result := Remove(result, a.name);
        result := Put(result, a.canonical, given.value);
      }
      assert !Conflict(a, before, str);
      assert result == Renamed(a, before);
      n := n + 1;
    }
    r := Some(result);
  }

  // ---- the table

  function Table(): seq<Alias> {
    [
      Alias("ibgdaProducers", "rdmaGpuProducers"),
      Alias("ibgdaQpsPerPeer", "rdmaQpsPerPeer"),
      Alias("ibgdaQueueDepth", "rdmaQueueDepth"),
      Alias("ibgdaDoorbellBatch", "rdmaDoorbellBatch"),
      Alias("ibgdaCqModeration", "rdmaCqModeration"),
      Alias("ibgdaMtu", "rdmaMtu"),
      Alias("ibgdaWqeBytes", "rdmaWqeBytes"),
      Alias("ibgdaMapQpByProducer", "rdmaMapQpByProducer"),
      Alias("ibgdaWqeBuildNs", "rdmaGpuWqeBuildNs"),
      Alias("ibgdaPublishNs", "rdmaGpuPublishNs"),
      Alias("ibgdaDoorbellNs", "rdmaGpuDoorbellNs"),
      Alias("ibgdaGpuPollNs", "rdmaGpuPollNs"),
      Alias("ibgdaBatchTimeoutNs", "rdmaBatchTimeoutNs"),
      Alias("ibgdaWqeFetchNs", "rdmaWqeFetchNs"),
      Alias("ibgdaDmaReadNs", "rdmaDmaReadNs"),
      Alias("ibgdaDmaWriteNs", "rdmaDmaWriteNs"),
      Alias("ibgdaCqWriteNs", "rdmaCqWriteNs"),
      Alias("ibgdaPcieReadGbps", "rdmaPcieReadGbps"),
      Alias("ibgdaPcieWriteGbps", "rdmaPcieWriteGbps"),
      Alias("ibgdaHbmReadGbps", "rdmaHbmReadGbps"),
      Alias("ibgdaHbmWriteGbps", "rdmaHbmWriteGbps")
    ]
  }

  // That no name repeats is shown through a number for each name, made of its length and two of its
  // characters: the numbers below differ within each column, so the names do.
  function Mark(s: string): int {
    |s| + 100 * CodeAt(s, 7) + 100000 * CodeAt(s, 10)
  }

  function CodeAt(s: string, i: nat): int {
    if i < |s| then s[i] as int else 0
  }

  predicate Marked(a: Alias, name: int, canonical: int) {
    Mark(a.name) == name && Mark(a.canonical) == canonical && "i" <= a.name && "r" <= a.canonical
  }

  lemma Marks0()
    ensures Marked(Alias("ibgdaProducers", "rdmaGpuProducers"), 9911114, 10008016)
    ensures Marked(Alias("ibgdaQpsPerPeer", "rdmaQpsPerPeer"), 11411515, 8008014)
    ensures Marked(Alias("ibgdaQueueDepth", "rdmaQueueDepth"), 6810115, 10111714)
    ensures Marked(Alias("ibgdaDoorbellBatch", "rdmaDoorbellBatch"), 10111118, 10811417)
    ensures Marked(Alias("ibgdaCqModeration", "rdmaCqModeration"), 10107717, 11411116)
    ensures Marked(Alias("ibgdaMtu", "rdmaMtu"), 11708, 7)
    ensures Marked(Alias("ibgdaWqeBytes", "rdmaWqeBytes"), 11610113, 10106612)
  {
  }

  lemma Marks1()
    ensures Marked(Alias("ibgdaMapQpByProducer", "rdmaMapQpByProducer"), 6611220, 12108119)
    ensures Marked(Alias("ibgdaWqeBuildNs", "rdmaGpuWqeBuildNs"), 10510115, 6608717)
    ensures Marked(Alias("ibgdaPublishNs", "rdmaGpuPublishNs"), 11509814, 10808016)
    ensures Marked(Alias("ibgdaDoorbellNs", "rdmaGpuDoorbellNs"), 10111115, 11406817)
    ensures Marked(Alias("ibgdaGpuPollNs", "rdmaGpuPollNs"), 10811714, 10808013)
    ensures Marked(Alias("ibgdaBatchTimeoutNs", "rdmaBatchTimeoutNs"), 8411619, 10509918)
    ensures Marked(Alias("ibgdaWqeFetchNs", "rdmaWqeFetchNs"), 11610115, 9907014)
  {
  }

  lemma Marks2()
    ensures Marked(Alias("ibgdaDmaReadNs", "rdmaDmaReadNs"), 9709714, 10008213)
    ensures Marked(Alias("ibgdaDmaWriteNs", "rdmaDmaWriteNs"), 10509715, 11608714)
    ensures Marked(Alias("ibgdaCqWriteNs", "rdmaCqWriteNs"), 11608714, 10111413)
    ensures Marked(Alias("ibgdaPcieReadGbps", "rdmaPcieReadGbps"), 10110517, 9710116)
    ensures Marked(Alias("ibgdaPcieWriteGbps", "rdmaPcieWriteGbps"), 11410518, 10510117)
    ensures Marked(Alias("ibgdaHbmReadGbps", "rdmaHbmReadGbps"), 9710916, 10008215)
    ensures Marked(Alias("ibgdaHbmWriteGbps", "rdmaHbmWriteGbps"), 10510917, 11608716)
  {
  }

  function NameMarks(): seq<int> {
    [9911114, 11411515, 6810115, 10111118, 10107717, 11708, 11610113, 6611220, 10510115, 11509814, 10111115, 10811714, 8411619, 11610115, 9709714, 10509715, 11608714, 10110517, 11410518, 9710916, 10510917]
  }

  function CanonicalMarks(): seq<int> {
    [10008016, 8008014, 10111714, 10811417, 11411116, 7, 10106612, 12108119, 6608717, 10808016, 11406817, 10808013, 10509918, 9907014, 10008213, 11608714, 10111413, 9710116, 10510117, 10008215, 11608716]
  }

  lemma NameMarksDiffer()
    ensures NoRepeats(NameMarks())
  {
  }

  lemma CanonicalMarksDiffer()
    ensures NoRepeats(CanonicalMarks())
  {
  }

  lemma MarkedIsOk(t: seq<Alias>, names: seq<int>, canonicals: seq<int>)
    requires |t| == |names| == |canonicals| && NoRepeats(names) && NoRepeats(canonicals)
    requires forall i :: 0 <= i < |t| ==> Marked(t[i], names[i], canonicals[i])
    ensures TableOk(t)
  {
    forall i, j | 0 <= i < |t| && 0 <= j < |t| ensures t[i].name != t[j].canonical {
      assert t[i].name[0] == 'i' && t[j].canonical[0] == 'r';
    }
  }

  lemma TableMarked()
    ensures |Table()| == |NameMarks()| == |CanonicalMarks()| == 21
    ensures forall i :: 0 <= i < 21 ==> Marked(Table()[i], NameMarks()[i], CanonicalMarks()[i])
  {
    Marks0();
    Marks1();
    Marks2();
  }

  /** The repository's table has the shape the normalisation needs. */
  lemma TableIsOk()
    ensures TableOk(Table())
  {
    TableMarked();
    NameMarksDiffer();
    CanonicalMarksDiffer();
    MarkedIsOk(Table(), NameMarks(), CanonicalMarks());
  }
}
