/** Ordered dictionaries as sequences of entries: an assignment replaces in place or appends. */
module Dictionary {
  import opened Wrappers
  import opened ConfigText

  function Find<V>(es: seq<Entry<V>>, k: string): Option<V> {
    if es == [] then None else if es[0].key == k then Some(es[0].value) else Find(es[1..], k)
  }

  function Put<V>(es: seq<Entry<V>>, k: string, v: V): seq<Entry<V>> {
    if es == [] then [Entry(k, v)]
    else if es[0].key == k then [Entry(k, v)] + es[1..]
    else [es[0]] + Put(es[1..], k, v)
  }

  function Remove<V>(es: seq<Entry<V>>, k: string): seq<Entry<V>> {
    if es == [] then [] else if es[0].key == k then Remove(es[1..], k) else [es[0]] + Remove(es[1..], k)
  }

  function Keys<V>(es: seq<Entry<V>>): seq<string> {
    seq(|es|, i requires 0 <= i < |es| => es[i].key)
  }

  lemma {:induction false} FindHas<V>(es: seq<Entry<V>>, k: string)
    ensures Find(es, k).Some? <==> HasKey(es, k)
  {
    if es != [] && es[0].key != k {
      FindHas(es[1..], k);
      if HasKey(es, k) {
        var i :| 0 <= i < |es| && es[i].key == k;
        assert es[1..][i - 1].key == k;
      }
    }
  }

  lemma {:induction false} FindAt<V>(es: seq<Entry<V>>, i: nat)
    requires Distinct(es) && i < |es|
    ensures Find(es, es[i].key) == Some(es[i].value)
  {
    if i > 0 {
      FindAt(es[1..], i - 1);
    }
  }

  lemma {:induction false} FindAppend<V>(es: seq<Entry<V>>, e: Entry<V>, k: string)
    ensures Find(es + [e], k) == if Find(es, k).Some? then Find(es, k) else if e.key == k then Some(e.value) else None
  {
    if es == [] {
      assert es + [e] == [e] && Find([e][1..], k) == None;
    } else {
      assert (es + [e])[1..] == es[1..] + [e];
      FindAppend(es[1..], e, k);
    }
  }

  lemma {:induction false} FindPut<V>(es: seq<Entry<V>>, k: string, v: V, j: string)
    ensures Find(Put(es, k, v), j) == if j == k then Some(v) else Find(es, j)
  {
    if es == [] {
      assert Find([Entry(k, v)][1..], j) == None;
    } else if es[0].key == k {
      assert ([Entry(k, v)] + es[1..])[1..] == es[1..];
    } else {
      assert ([es[0]] + Put(es[1..], k, v))[1..] == Put(es[1..], k, v);
      FindPut(es[1..], k, v, j);
    }
  }

  lemma {:induction false} FindRemove<V>(es: seq<Entry<V>>, k: string, j: string)
    ensures Find(Remove(es, k), j) == if j == k then None else Find(es, j)
  {
    if es != [] {
      FindRemove(es[1..], k, j);
      if es[0].key != k {
        assert ([es[0]] + Remove(es[1..], k))[1..] == Remove(es[1..], k);
      }
    }
  }

  lemma {:induction false} PutEntries<V>(es: seq<Entry<V>>, k: string, v: V, i: nat)
    requires i < |Put(es, k, v)|
    ensures Put(es, k, v)[i] == Entry(k, v) || Put(es, k, v)[i] in es
  {
    if es != [] && es[0].key != k && i > 0 {
      PutEntries(es[1..], k, v, i - 1);
    }
  }

  lemma {:induction false} RemoveEntries<V>(es: seq<Entry<V>>, k: string, i: nat)
    requires i < |Remove(es, k)|
    ensures Remove(es, k)[i] in es
  {
    if es[0].key == k {
      RemoveEntries(es[1..], k, i);
    } else if i > 0 {
      RemoveEntries(es[1..], k, i - 1);
    }
  }

  lemma KeysCons<V>(e: Entry<V>, es: seq<Entry<V>>)
    ensures Keys([e] + es) == [e.key] + Keys(es)
  {
  }

  lemma {:induction false} PutKeys<V>(es: seq<Entry<V>>, k: string, v: V)
    ensures Keys(Put(es, k, v)) == if HasKey(es, k) then Keys(es) else Keys(es) + [k]
  {
    if es != [] {
      KeysCons(es[0], es[1..]);
      assert es == [es[0]] + es[1..];
      if es[0].key == k {
        KeysCons(Entry(k, v), es[1..]);
      } else {
        KeysCons(es[0], Put(es[1..], k, v));
        PutKeys(es[1..], k, v);
        FindHas(es, k);
        FindHas(es[1..], k);
      }
    }
  }

  lemma KeysDistinct<V, W>(a: seq<Entry<V>>, b: seq<Entry<W>>)
    requires Keys(a) == Keys(b) && Distinct(a)
    ensures Distinct(b)
  {
    forall i, j | 0 <= i < j < |b| ensures b[i].key != b[j].key {
      assert |Keys(a)| == |Keys(b)|;
      assert Keys(a)[i] == Keys(b)[i] && Keys(a)[j] == Keys(b)[j];
    }
  }

  lemma PutDistinct<V>(es: seq<Entry<V>>, k: string, v: V)
    requires Distinct(es)
    ensures Distinct(Put(es, k, v))
  {
    PutKeys(es, k, v);
    if HasKey(es, k) {
      KeysDistinct(es, Put(es, k, v));
    } else {
      KeysDistinct(es + [Entry(k, v)], Put(es, k, v));
    }
  }

  lemma {:induction false} RemoveDistinct<V>(es: seq<Entry<V>>, k: string)
    requires Distinct(es)
    ensures Distinct(Remove(es, k))
  {
    if es != [] {
      var rest := Remove(es[1..], k);
      RemoveDistinct(es[1..], k);
      if es[0].key != k {
        forall i | 0 <= i < |rest| ensures rest[i].key != es[0].key {
          RemoveEntries(es[1..], k, i);
        }
      }
    }
  }
}
