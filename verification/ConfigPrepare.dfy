/** The part of Catalog.prepare that builds the simulator's configuration text (webui/catalog.py):
    read the chosen text, apply the overrides to its dictionaries, render the result. */
module ConfigPrepare {
  import opened Wrappers
  import opened TextLines
  import opened ConfigText
  import opened Dictionary
  import opened RdmaAliases

  /** An override value: numbers come with the text that str gives them. */
  datatype Value = Bool(b: bool) | Int(digits: string) | Float(digits: string, finite: bool) | Str(s: string)

  function Text(v: Value): string {
    match v
    case Bool(b) => if b then "True" else "False"
    case Int(d) => d
    case Float(d, _) => d
    case Str(s) => s
  }

  predicate PlainChar(c: char) {
    IsLetter(c) || '0' <= c <= '9' || c in "_:./+-"
  }

  predicate PlainText(t: string) {
    0 < |t| <= 128 && forall i :: 0 <= i < |t| ==> PlainChar(t[i])
  }

  function Scalar(v: Value): Option<string> {
    if v.Bool? then Some(if v.b then "1" else "0")
    else if v.Float? && !v.finite then None
    else if PlainText(Text(v)) then Some(Text(v)) else None
  }

  /** A text that scalar lets through can stand as a value of the configuration. */
  lemma PlainIsValue(t: string)
    requires PlainText(t)
    ensures ValueOk(t) && Trimmed(t) && '#' !in t && '=' !in t && NoBreak(t)
  {
    forall c | c in t ensures PlainChar(c) && c != '#' && c != '=' && c != '\0' && !IsSpace(c) && !IsBreak(c) {
    }
    assert t[0] in t && t[|t| - 1] in t;
  }

  lemma ScalarIsValue(v: Value)
    requires Scalar(v).Some?
    ensures var t := Scalar(v).value; ValueOk(t) && Trimmed(t) && '#' !in t && '=' !in t && NoBreak(t)
  {
    if v.Bool? {
      assert Scalar(v).value == "1" || Scalar(v).value == "0";
    }
    PlainIsValue(Scalar(v).value);
  }

  predicate OverrideKeyOk(u: Alphabet, k: string) {
    k != "profile" && k != [] && IsLetter(k[0]) && forall i :: 1 <= i < |k| ==> IsWord(u, k[i])
  }

  /** What an override value becomes: booleans are 1 and 0, an infinite number is refused, and any other
      text must be plain and at most 128 characters long. */
  lemma ScalarMeans(v: Value, t: string)
    ensures Scalar(Bool(true)) == Some("1") && Scalar(Bool(false)) == Some("0")
    ensures Scalar(Float(t, false)) == None
    ensures v in {Int(t), Float(t, true), Str(t)} ==>
      Scalar(v) == if 1 <= |t| <= 128 && (forall i :: 0 <= i < |t| ==> PlainChar(t[i])) then Some(t) else None
    ensures Text(Bool(true)) == "True" && Text(Bool(false)) == "False"
    ensures Text(Int(t)) == Text(Float(t, true)) == Text(Float(t, false)) == Text(Str(t)) == t
  {
  }

  /** The plain characters, one by one. */
  lemma PlainChars(c: char)
    ensures PlainChar(c) <==>
      c in "abcdefghijklmnopqrstuvwxyz" || c in "ABCDEFGHIJKLMNOPQRSTUVWXYZ" || c in "0123456789" || c in "_:./+-"
  {
    LetterTable(c);
  }

  /** Which keys may override the configuration. */
  lemma OverrideKeys(u: Alphabet, c: char, rest: string)
    ensures OverrideKeyOk(u, [c] + rest) <==>
      IsLetter(c) && [c] + rest != "profile" && forall i :: 0 <= i < |rest| ==> IsWord(u, rest[i])
    ensures !OverrideKeyOk(u, "")
  {
    var k := [c] + rest;
    assert forall i :: 0 <= i < |rest| ==> rest[i] == k[i + 1];
    assert forall i :: 1 <= i < |k| ==> k[i] == rest[i - 1];
  }

  /** Of the operation only its collective, algorithm and topology may be overridden, and the first two
      only where there is a collective. */
  lemma OpOverrideRules(op: Entries, k: string, text: string)
    requires PlainText(text)
    ensures OpOverridesOk(op, [Entry(k, Str(text))]) <==>
      k == "topology" || ((k == "collective" || k == "algorithm") && HasKey(op, "collective"))
  {
    var os := [Entry(k, Str(text))];
    assert os[0].key == k && Scalar(os[0].value) == Some(text);
    assert AllScalar(os);
    assert (forall i :: 0 <= i < |os| ==> OpKey(os[i].key)) <==> OpKey(k);
    assert HasKey(os, "collective") <==> k == "collective" by {
      assert os[0].key == k;
    }
    assert HasKey(os, "algorithm") <==> k == "algorithm" by {
      assert os[0].key == k;
    }
  }

  // ---- one dictionary updated with another

  predicate ScalarTo(os: seq<Entry<Value>>, n: nat)
    requires n <= |os|
  {
    forall i :: 0 <= i < n ==> Scalar(os[i].value).Some?
  }

  predicate AllScalar(os: seq<Entry<Value>>) { ScalarTo(os, |os|) }

  // The dictionary after the first n assignments.
  function Updated(es: Entries, os: seq<Entry<Value>>, n: nat): Entries
    requires n <= |os| && ScalarTo(os, n)
  {
    if n == 0 then es else Put(Updated(es, os, n - 1), os[n - 1].key, Scalar(os[n - 1].value).value)
  }

  /** What a key means once overrides have been applied: the override's text, else the old value. */
  function Overridden(es: Entries, os: seq<Entry<Value>>, k: string): Option<string> {
    var o := Find(os, k);
    if o.Some? then Scalar(o.value) else Find(es, k)
  }

  lemma {:induction false} FindUpdated(es: Entries, os: seq<Entry<Value>>, n: nat, k: string)
    requires n <= |os| && ScalarTo(os, n) && Distinct(os)
    ensures Find(Updated(es, os, n), k) == Overridden(es, os[..n], k)
  {
    if n > 0 {
      FindUpdated(es, os, n - 1, k);
      FindPut(Updated(es, os, n - 1), os[n - 1].key, Scalar(os[n - 1].value).value, k);
      assert os[..n] == os[..n - 1] + [os[n - 1]];
      FindAppend(os[..n - 1], os[n - 1], k);
      FindHas(os[..n - 1], k);
    }
  }

  lemma PutOk(u: Alphabet, es: Entries, k: string, v: string)
    requires EntriesOk(u, es) && EntryOk(u, Entry(k, v))
    ensures EntriesOk(u, Put(es, k, v))
  {
    PutDistinct(es, k, v);
    forall i | 0 <= i < |Put(es, k, v)| ensures EntryOk(u, Put(es, k, v)[i]) {
      PutEntries(es, k, v, i);
    }
  }

  lemma RemoveOk(u: Alphabet, es: Entries, k: string)
    requires EntriesOk(u, es)
    ensures EntriesOk(u, Remove(es, k))
  {
    RemoveDistinct(es, k);
    forall i | 0 <= i < |Remove(es, k)| ensures EntryOk(u, Remove(es, k)[i]) {
      RemoveEntries(es, k, i);
    }
  }

  lemma {:induction false} UpdatedOk(u: Alphabet, es: Entries, os: seq<Entry<Value>>, n: nat)
    requires n <= |os| && ScalarTo(os, n) && EntriesOk(u, es) && forall i :: 0 <= i < |os| ==> KeyOk(u, os[i].key)
    ensures EntriesOk(u, Updated(es, os, n))
  {
    if n > 0 {
      UpdatedOk(u, es, os, n - 1);
      ScalarIsValue(os[n - 1].value);
      PutOk(u, Updated(es, os, n - 1), os[n - 1].key, Scalar(os[n - 1].value).value);
    }
  }

  /** Overriding never moves or drops a key that was there: new keys come after the old ones. */
  lemma {:induction false} UpdatedKeepsOrder(es: Entries, os: seq<Entry<Value>>, n: nat)
    requires n <= |os| && ScalarTo(os, n)
    ensures Keys(es) <= Keys(Updated(es, os, n))
  {
    if n > 0 {
      UpdatedKeepsOrder(es, os, n - 1);
      PutKeys(Updated(es, os, n - 1), os[n - 1].key, Scalar(os[n - 1].value).value);
    }
  }

  // ---- renaming aliases keeps entries well formed

  lemma RenamedOk(u: Alphabet, a: Alias, es: Entries)
    requires EntriesOk(u, es) && KeyOk(u, a.canonical)
    ensures EntriesOk(u, Renamed(a, es))
  {
    var v := Find(es, a.name);
    if v.Some? {
      FoundOk(u, es, a.name);
      RemoveOk(u, es, a.name);
      PutOk(u, Remove(es, a.name), a.canonical, v.value);
    }
  }

  lemma {:induction false} FoundOk(u: Alphabet, es: Entries, k: string)
    requires EntriesOk(u, es) && Find(es, k).Some?
    ensures EntryOk(u, Entry(k, Find(es, k).value))
  {
    if es[0].key == k {
      assert es[0] == Entry(k, Find(es, k).value);
    } else {
      FoundOk(u, es[1..], k);
    }
  }

  lemma {:induction false} NormalizedOk(u: Alphabet, t: seq<Alias>, n: nat, es: Entries)
    requires n <= |t| && EntriesOk(u, es) && forall i :: 0 <= i < |t| ==> KeyOk(u, t[i].canonical)
    ensures EntriesOk(u, NormalizedTo(t, n, es))
  {
    if n > 0 {
      NormalizedOk(u, t, n - 1, es);
      RenamedOk(u, t[n - 1], NormalizedTo(t, n - 1, es));
    }
  }

  // ---- prepare

  function Identity(s: string): string { s }

  predicate OpKey(k: string) { k == "collective" || k == "algorithm" || k == "topology" }

  predicate OpOverridesOk(op: Entries, os: seq<Entry<Value>>) {
    && AllScalar(os)
    && (forall i :: 0 <= i < |os| ==> OpKey(os[i].key))
    && (HasKey(op, "collective") || (!HasKey(os, "collective") && !HasKey(os, "algorithm")))
  }

  predicate StackOverridesOk(u: Alphabet, os: seq<Entry<Value>>) {
    AllScalar(os) && forall i :: 0 <= i < |os| ==> OverrideKeyOk(u, os[i].key)
  }

  /** What prepare needs of its text and overrides before it can merge them. */
  predicate Acceptable(u: Alphabet, t: seq<Alias>, text: string, opOverrides: seq<Entry<Value>>, stackOverrides: seq<Entry<Value>>) {
    var c := Read(u, true, text);
    && c.Ok? && Op in c.value && c.value[Op] != [] && Stack in c.value && HasKey(c.value[Stack], "profile")
    && OpOverridesOk(c.value[Op], opOverrides)
    && !AnyConflict(t, c.value[Stack], Identity)
    && !AnyConflict(t, stackOverrides, Text)
    && StackOverridesOk(u, Normalized(t, stackOverrides))
  }

  /** Without overrides: the text must be readable, with entries under [op], a profile under [stack] and
      no conflicting aliases. */
  lemma AcceptableText(u: Alphabet, t: seq<Alias>, text: string)
    ensures Acceptable(u, t, text, [], []) <==>
      && Read(u, true, text).Ok?
      && (var c := Read(u, true, text).value;
          && Op in c && |c[Op]| > 0 && Stack in c && (exists i :: 0 <= i < |c[Stack]| && c[Stack][i].key == "profile")
          && !AnyConflict(t, c[Stack], Identity))
  {
    var none: seq<Entry<Value>> := [];
    NothingNormalized(t, |t|);
    NothingConflicts(t);
    assert !HasKey(none, "collective") && !HasKey(none, "algorithm");
    assert StackOverridesOk(u, none) && AllScalar(none);
  }

  lemma {:induction false} NothingNormalized(t: seq<Alias>, n: nat)
    requires n <= |t|
    ensures NormalizedTo<Value>(t, n, []) == []
  {
    if n > 0 {
      NothingNormalized(t, n - 1);
    }
  }

  lemma NothingConflicts(t: seq<Alias>)
    ensures !AnyConflict<Value>(t, [], Text)
  {
  }

  datatype Prepared = Prepared(text: string, stack: Entries, op: Entries)

  method Update(es: Entries, os: seq<Entry<Value>>) returns (r: Option<Entries>)
    ensures r.Some? <==> AllScalar(os)
    ensures r.Some? ==> r.value == Updated(es, os, |os|)
  {
    var result := es;
    var n := 0;
    while n < |os|
      invariant 0 <= n <= |os| && ScalarTo(os, n)
      invariant result == Updated(es, os, n)
    {
      var t := Scalar(os[n].value);
      if t.None? {
        return None;
      }
      result := Put(result, os[n].key, t.value);
      n := n + 1;
    }
    r := Some(result);
  }

  predicate CanonicalsOk(u: Alphabet, t: seq<Alias>) {
    TableOk(t) && forall i :: 0 <= i < |t| ==> KeyOk(u, t[i].canonical)
  }

  lemma ProfileOk(u: Alphabet)
    ensures EntryOk(u, Entry("profile", "profile.profile"))
  {
    PlainIsValue("profile.profile");
  }

  /** What the rendered stack and op dictionaries hold, key by key. */
  ghost predicate Merged(t: seq<Alias>, c: Config, opOverrides: seq<Entry<Value>>, stackOverrides: seq<Entry<Value>>, p: Prepared)
    requires Stack in c && Op in c
  {
    && (forall k :: Find(p.op, k) == Overridden(c[Op], opOverrides, k))
    && (forall k :: k != "profile" ==>
         Find(p.stack, k) == Overridden(Normalized(t, c[Stack]), Normalized(t, stackOverrides), k))
    && Find(p.stack, "profile") == Some("profile.profile")
    && Keys(c[Op]) <= Keys(p.op)
    && Keys(Normalized(t, c[Stack])) <= Keys(p.stack)
  }

  lemma MergedStack(stack: Entries, os: seq<Entry<Value>>)
    requires Distinct(os) && AllScalar(os)
    ensures var s := Put(Updated(stack, os, |os|), "profile", "profile.profile");
      && Find(s, "profile") == Some("profile.profile")
      && (forall k :: k != "profile" ==> Find(s, k) == Overridden(stack, os, k))
      && Keys(stack) <= Keys(s)
  {
    var before := Updated(stack, os, |os|);
    FindPut(before, "profile", "profile.profile", "profile");
    forall k | k != "profile" ensures Find(Put(before, "profile", "profile.profile"), k) == Overridden(stack, os, k) {
      FindPut(before, "profile", "profile.profile", k);
      FindUpdated(stack, os, |os|, k);
      assert os[..|os|] == os;
    }
    UpdatedKeepsOrder(stack, os, |os|);
    PutKeys(before, "profile", "profile.profile");
  }

  lemma MergedOp(op: Entries, os: seq<Entry<Value>>)
    requires Distinct(os) && AllScalar(os)
    ensures forall k :: Find(Updated(op, os, |os|), k) == Overridden(op, os, k)
    ensures Keys(op) <= Keys(Updated(op, os, |os|))
  {
    forall k ensures Find(Updated(op, os, |os|), k) == Overridden(op, os, k) {
      FindUpdated(op, os, |os|, k);
      assert os[..|os|] == os;
    }
    UpdatedKeepsOrder(op, os, |os|);
  }

  lemma OpKeysOk(u: Alphabet, os: seq<Entry<Value>>)
    requires forall i :: 0 <= i < |os| ==> OpKey(os[i].key)
    ensures forall i :: 0 <= i < |os| ==> KeyOk(u, os[i].key)
  {
    assert KeyOk(u, "collective") && KeyOk(u, "algorithm") && KeyOk(u, "topology");
  }

  // The rendered entries can be read back.
  lemma StackRenders(u: Alphabet, t: seq<Alias>, stack: Entries, os: seq<Entry<Value>>)
    requires CanonicalsOk(u, t) && EntriesOk(u, stack) && StackOverridesOk(u, os)
    ensures EntriesOk(u, Put(Updated(Normalized(t, stack), os, |os|), "profile", "profile.profile"))
  {
    NormalizedOk(u, t, |t|, stack);
    UpdatedOk(u, Normalized(t, stack), os, |os|);
    ProfileOk(u);
    PutOk(u, Updated(Normalized(t, stack), os, |os|), "profile", "profile.profile");
  }

  method MergeStack(u: Alphabet, stack: Entries, os: seq<Entry<Value>>) returns (r: Option<Entries>)
    ensures r.Some? <==> StackOverridesOk(u, os)
    ensures r.Some? ==> r.value == Updated(stack, os, |os|)
  {
    var result := stack;
    var n := 0;
    while n < |os|
      invariant 0 <= n <= |os| && ScalarTo(os, n) && forall i :: 0 <= i < n ==> OverrideKeyOk(u, os[i].key)
      invariant result == Updated(stack, os, n)
    {
      if !OverrideKeyOk(u, os[n].key) {
        return None;
      }
      var t := Scalar(os[n].value);
      if t.None? {
        return None;
      }
      result := Put(result, os[n].key, t.value);
      n := n + 1;
    }
    r := Some(result);
  }

  /** The merged sections, before the profile's path is replaced. */
  ghost function MergedSections(u: Alphabet, t: seq<Alias>, text: string, opOverrides: seq<Entry<Value>>, stackOverrides: seq<Entry<Value>>):
    (Entries, Entries)
    requires Acceptable(u, t, text, opOverrides, stackOverrides)
  {
    var c := Read(u, true, text).value;
    var os := Normalized(t, stackOverrides);
    (Updated(Normalized(t, c[Stack]), os, |os|), Updated(c[Op], opOverrides, |opOverrides|))
  }

  /** The text prepared for the simulator reads back as exactly the merged dictionaries, in order.
      The checks of the merged sections that are not modelled (numbers, profile, topology) are the
      caller's `refuses`; a text is prepared exactly when the inputs are acceptable and those checks
      do not refuse their sections. */
  method Prepare(u: Alphabet, t: seq<Alias>, text: string, opOverrides: seq<Entry<Value>>, stackOverrides: seq<Entry<Value>>,
                 refuses: (Entries, Entries) -> bool)
    returns (r: Option<Prepared>)
    requires Sane(u) && CanonicalsOk(u, t) && Distinct(opOverrides) && Distinct(stackOverrides)
    ensures r.Some? <==>
      (Acceptable(u, t, text, opOverrides, stackOverrides)
       && (var m := MergedSections(u, t, text, opOverrides, stackOverrides); !refuses(m.0, m.1)))
    ensures r.Some? ==> Read(u, true, r.value.text) == Ok(map[Top := [], Stack := r.value.stack, Op := r.value.op])
    ensures r.Some? ==> Merged(t, Read(u, true, text).value, opOverrides, stackOverrides, r.value)
  {
    var parsed := ParseValues(u, text, true);
    if parsed.Err? {
      return None;
    }
    var config := parsed.value;
    if Op !in config || config[Op] == [] || Stack !in config || !HasKey(config[Stack], "profile") {
      return None;
    }
    ReadGivesOk(u, true, text);
    if !OpOverridesOk(config[Op], opOverrides) {
      return None;
    }
    var op := Update(config[Op], opOverrides);
    var stack := NormalizeValues(t, config[Stack], Identity);
    var overrides := NormalizeValues(t, stackOverrides, Text);
    if stack.None? || overrides.None? {
      return None;
    }
    var merged := MergeStack(u, stack.value, overrides.value);
    if merged.None? {
      return None;
    }
    if refuses(merged.value, op.value) {
      return None;
    }
    var final := Put(merged.value, "profile", "profile.profile");
    OpKeysOk(u, opOverrides);
    UpdatedOk(u, config[Op], opOverrides, |opOverrides|);
    StackRenders(u, t, config[Stack], overrides.value);
    MergedOp(config[Op], opOverrides);
    MergedStack(stack.value, overrides.value);
    RoundTrip(u, final, op.value);
    r := Some(Prepared(Render(final, op.value), final, op.value));
  }

  // The repository's own table of aliases can be used.

  lemma Canonicals0(u: Alphabet)
    ensures KeyOk(u, "rdmaGpuProducers")
    ensures KeyOk(u, "rdmaQpsPerPeer")
    ensures KeyOk(u, "rdmaQueueDepth")
    ensures KeyOk(u, "rdmaDoorbellBatch")
    ensures KeyOk(u, "rdmaCqModeration")
    ensures KeyOk(u, "rdmaMtu")
    ensures KeyOk(u, "rdmaWqeBytes")
  {
  }

  lemma Canonicals1(u: Alphabet)
    ensures KeyOk(u, "rdmaMapQpByProducer")
    ensures KeyOk(u, "rdmaGpuWqeBuildNs")
    ensures KeyOk(u, "rdmaGpuPublishNs")
    ensures KeyOk(u, "rdmaGpuDoorbellNs")
    ensures KeyOk(u, "rdmaGpuPollNs")
    ensures KeyOk(u, "rdmaBatchTimeoutNs")
    ensures KeyOk(u, "rdmaWqeFetchNs")
  {
  }

  lemma Canonicals2(u: Alphabet)
    ensures KeyOk(u, "rdmaDmaReadNs")
    ensures KeyOk(u, "rdmaDmaWriteNs")
    ensures KeyOk(u, "rdmaCqWriteNs")
    ensures KeyOk(u, "rdmaPcieReadGbps")
    ensures KeyOk(u, "rdmaPcieWriteGbps")
    ensures KeyOk(u, "rdmaHbmReadGbps")
    ensures KeyOk(u, "rdmaHbmWriteGbps")
  {
  }

  lemma TableCanonicals(u: Alphabet)
    ensures CanonicalsOk(u, Table())
  {
    TableIsOk();
    Canonicals0(u);
    Canonicals1(u);
    Canonicals2(u);
  }
}
