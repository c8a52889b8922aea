/** The drop threshold, the forced link retry and the credit count, decided twice: by the web form
    from its dictionaries (webui/options.py) and by the simulator from its command line and profile
    (scratch/gpu-cluster-sim.cc). */
module FormNative {
  import opened Wrappers
  import opened TextLines
  import opened ConfigText
  import opened Dictionary

  // ---- numbers as text

  predicate IsDigit(c: char) { '0' <= c <= '9' }

  predicate AllDigits(t: string) {
    t != [] && forall i :: 0 <= i < |t| ==> IsDigit(t[i])
  }

  function Digits(t: string): (n: nat)
    requires forall i :: 0 <= i < |t| ==> IsDigit(t[i])
  {
    if t == [] then 0 else
      var c := t[|t| - 1];
      assert IsDigit(c);
      10 * Digits(t[..|t| - 1]) + (c as int - '0' as int)
  }

  predicate IsInteger(t: string) {
    AllDigits(t) || (t != [] && t[0] == '-' && AllDigits(t[1..]))
  }

  function Number(t: string): int
    requires IsInteger(t)
  {
    if t[0] == '-' then (var d: int := Digits(t[1..]); -d) else Digits(t)
  }

  predicate InRange(t: string, low: int, high: int) {
    IsInteger(t) && low <= Number(t) <= high
  }

  function U32(n: int): int { n % 0x1_0000_0000 }

  // ---- the options both sides read

  datatype Opt = Drop | Depth | Mode | Pause | Headroom | Credits | Buffer | Spray

  function Name(o: Opt): string {
    match o
    case Drop => "voqDropThreshold"
    case Depth => "switchVoqDepth"
    case Mode => "switchPfcMode"
    case Pause => "pfcPauseThreshold"
    case Headroom => "pfcHeadroomChunks"
    case Credits => "vcCredits"
    case Buffer => "vcBufferSizeBytes"
    case Spray => "sprayChunkSize"
  }

  // The lemmas below hold for any names of which the drop threshold's has no equals sign.
  type Names = Opt -> string

  predicate NamesOk(names: Names) { '=' !in names(Drop) }

  function Low(o: Opt): int { if o.Depth? || o.Pause? || o.Credits? || o.Spray? then 1 else 0 }

  function High(o: Opt): int {
    match o
    case Drop => 999999
    case Depth => 1000000
    case Mode => 3
    case Pause => 999999
    case Headroom => 1000000
    case Credits => 1073741824
    case Buffer => 1073741824
    case Spray => 67108864
  }

  /** The default of the simulator's own variable. */
  function NativeDefault(o: Opt): int {
    match o
    case Drop => 8
    case Depth => 10000
    case Mode => 0
    case Pause => 64
    case Headroom => 0
    case Credits => 104857600
    case Buffer => 0
    case Spray => 131072
  }

  datatype Fabric = Eth | Roce

  datatype Input = Input(cli: Entries, resolved: Entries, fabric: Fabric)

  /** The text that decides an option for the form, if any was given: the profile's, for the options a
      profile may set, before the command line's. */
  function Given(n: Names, i: Input, o: Opt): Option<string> {
    var p := Find(i.resolved, n(o));
    if o in {Depth, Spray} && p.Some? then p else Find(i.cli, n(o))
  }

  predicate FitsOption(g: Option<string>, o: Opt) {
    g.Some? ==> InRange(g.value, Low(o), High(o))
  }

  /** Both dictionaries hold numbers within the ranges the form checks. */
  ghost predicate Valid(n: Names, i: Input) {
    && NamesOk(n)
    && Distinct(i.cli)
    && (forall k :: 0 <= k < |i.cli| ==> '=' !in i.cli[k].key)
    && (forall k :: 0 <= k < |i.cli| && n(Drop) <= i.cli[k].key ==> i.cli[k].key == n(Drop))
    && (forall o: Opt :: FitsOption(Find(i.cli, n(o)), o))
    && FitsOption(Find(i.resolved, n(Depth)), Depth) && FitsOption(Find(i.resolved, n(Spray)), Spray)
  }

  datatype Values = Values(drop: int, depth: int, mode: int, pause: int, headroom: int, credits: int, buffer: int, spray: int)

  datatype Decision = Decision(armed: int, forcedLlr: bool, credits: int, refused: bool)

  // ---- the form

  function FormValue(n: Names, i: Input, o: Opt, otherwise: int): int {
    var g := Given(n, i, o);
    if g.Some? && IsInteger(g.value) then Number(g.value) else otherwise
  }

  function FormValues(n: Names, i: Input): Values {
    Values(
      FormValue(n, i, Drop, if i.fabric == Eth then 8 else 0), FormValue(n, i, Depth, 10000),
      FormValue(n, i, Mode, 0), FormValue(n, i, Pause, 64), FormValue(n, i, Headroom, 0),
      FormValue(n, i, Credits, 104857600), FormValue(n, i, Buffer, 0), FormValue(n, i, Spray, 131072))
  }

  function FormFrom(fabric: Fabric, v: Values): Decision {
    var share := if v.spray == 0 then 0 else v.buffer / v.spray;
    Decision(
      v.drop,
      fabric == Eth || v.drop > 0 || (v.mode > 0 && v.headroom > 0),
      if v.buffer == 0 then v.credits else if share > 1 then share else 1,
      (v.drop != 0 && v.drop >= v.depth) || (v.mode != 0 && v.drop != 0 && v.pause >= v.drop))
  }

  /** Packets can be lost on the way: always on plain Ethernet, at an armed drop threshold, or when
      paused switches run out of a finite headroom. */
  predicate LossPossible(fabric: Fabric, v: Values) {
    fabric == Eth || v.drop > 0 || (v.mode > 0 && v.headroom > 0)
  }

  /** An armed drop threshold lies above the pause threshold, if pausing is on, and below the depth. */
  predicate ThresholdsOrdered(v: Values) {
    v.drop != 0 ==> v.drop < v.depth && (v.mode != 0 ==> v.pause < v.drop)
  }

  /** The credits are as many whole chunks as the buffer holds, but at least one. */
  predicate CreditsFill(credits: int, buffer: int, chunk: int) {
    credits >= 1 && buffer < (credits + 1) * chunk && (credits > 1 ==> credits * chunk <= buffer)
  }

  /** What the form's decision means. */
  lemma FormMeans(fabric: Fabric, v: Values)
    requires v.spray > 0 && v.buffer >= 0 && v.drop >= 0
    ensures var d := FormFrom(fabric, v);
      && d.armed == v.drop
      && (d.refused <==> !ThresholdsOrdered(v))
      && (d.forcedLlr <==> LossPossible(fabric, v))
      && (if v.buffer == 0 then d.credits == v.credits else CreditsFill(d.credits, v.buffer, v.spray))
  {
    WholeChunks(v.buffer, v.spray, v.buffer / v.spray);
  }

  lemma WholeChunks(buffer: int, chunk: int, q: int)
    requires chunk > 0 && buffer >= 0 && q == buffer / chunk
    ensures CreditsFill(if q > 1 then q else 1, buffer, chunk)
  {
    assert q * chunk <= buffer < q * chunk + chunk;
    assert (q + 1) * chunk == q * chunk + chunk;
    if q == 0 {
      assert 2 * chunk >= chunk;
    }
  }

  /** The multi-node decisions of validate_configuration for a collective. */
  method FormDecides(fabric: Fabric, v: Values) returns (d: Decision)
    requires v.spray > 0 && v.buffer >= 0
    ensures d == FormFrom(fabric, v)
  {
    var forced := fabric == Eth || (fabric == Roce && v.drop > 0) || (v.mode > 0 && v.headroom > 0);
    var refused := false;
    if v.drop != 0 && v.drop >= v.depth {
      refused := true;
    }
    if v.mode != 0 && v.drop != 0 && v.pause >= v.drop {
      refused := true;
    }
    var credits := v.credits;
    if v.buffer != 0 {
      credits := if v.buffer / v.spray > 1 then v.buffer / v.spray else 1;
    }
    d := Decision(v.drop, forced, credits, refused);
  }

  // ---- the simulator's command line

  function Argument(e: Entry<string>): string { "--" + e.key + "=" + e.value }

  function Arguments(es: Entries): seq<string> {
    seq(|es|, k requires 0 <= k < |es| => Argument(es[k]))
  }

  /** An argument is split at its first equals sign. */
  function ArgName(a: string): string {
    var k := FirstOf(a, '=');
    if k >= 2 then a[2..k] else []
  }

  function ArgValue(a: string): string {
    var k := FirstOf(a, '=');
    if k < |a| then a[k + 1..] else []
  }

  lemma ArgumentSplits(e: Entry<string>)
    requires '=' !in e.key
    ensures ArgName(Argument(e)) == e.key && ArgValue(Argument(e)) == e.value
  {
    var a, k := Argument(e), |e.key| + 2;
    assert a[..k] == "--" + e.key && a[k] == '=';
    FirstOfIs(a, '=', k);
    assert a[2..k] == e.key && a[k + 1..] == e.value;
  }

  /** The variable of an option after the command line has been read: the last argument wins. */
  function Parsed(name: string, argv: seq<string>, default_: int): int {
    if argv == [] then default_
    else
      var last := argv[|argv| - 1];
      if ArgName(last) == name && IsInteger(ArgValue(last)) then Number(ArgValue(last))
      else Parsed(name, argv[..|argv| - 1], default_)
  }

  /** The variable after the profile, if it may set the option, has been applied as a 32-bit number. */
  function Applied(n: Names, argv: seq<string>, profile: Entries, o: Opt): int {
    var p := Find(profile, n(o));
    if (o.Depth? || o.Spray?) && p.Some? && IsInteger(p.value) then U32(Number(p.value)) else Parsed(n(o), argv, NativeDefault(o))
  }

  function NativeValues(n: Names, argv: seq<string>, profile: Entries): Values {
    Values(
      Applied(n, argv, profile, Drop), Applied(n, argv, profile, Depth), Applied(n, argv, profile, Mode),
      Applied(n, argv, profile, Pause), Applied(n, argv, profile, Headroom), Applied(n, argv, profile, Credits),
      Applied(n, argv, profile, Buffer), Applied(n, argv, profile, Spray))
  }

  predicate FlagGiven(flag: string, argv: seq<string>, k: nat)
    requires k <= |argv|
  {
    exists j :: 0 <= j < k && flag <= argv[j]
  }

  function Flag(n: Names): string { "--" + n(Drop) }

  function NativeFrom(fabric: Fabric, dropSet: bool, v: Values): Decision {
    var lossyRoce := fabric == Roce && dropSet && v.drop != 0;
    var armed := if fabric == Roce && !lossyRoce then 0 else v.drop;
    Decision(
      armed,
      fabric == Eth || lossyRoce || (v.mode != 0 && v.headroom > 0),
      if v.buffer > 0 && v.spray > 0 then (var c := U32(v.buffer / v.spray); if c == 0 then 1 else c) else U32(v.credits),
      || (v.mode != 0 && armed != 0 && v.pause >= armed)
      || ((lossyRoce || fabric == Eth) && v.drop != 0 && v.drop >= v.depth))
  }

  function NativeDecision(n: Names, argv: seq<string>, profile: Entries, fabric: Fabric): Decision {
    NativeFrom(fabric, FlagGiven(Flag(n), argv, |argv|), NativeValues(n, argv, profile))
  }

  /** The simulator's multi-node decisions; `refused` is one of its two threshold aborts. */
  method NativeDecides(flag: string, argv: seq<string>, v: Values, fabric: Fabric) returns (d: Decision)
    ensures d == NativeFrom(fabric, FlagGiven(flag, argv, |argv|), v)
  {
    var effectiveVcCredits := U32(v.credits);
    if v.buffer > 0 && v.spray > 0 {
      effectiveVcCredits := U32(v.buffer / v.spray);
      if effectiveVcCredits == 0 {
        effectiveVcCredits := 1;
      }
    }
    var voqDropThresholdSet := false;
    var k := 0;
    while k < |argv|
      invariant 0 <= k <= |argv|
      invariant voqDropThresholdSet == FlagGiven(flag, argv, k)
    {
      if flag <= argv[k] {
        voqDropThresholdSet := true;
      }
      k := k + 1;
    }
    var lossyRoce := fabric == Roce && voqDropThresholdSet && v.drop != 0;
    var forced := fabric == Eth || lossyRoce || (v.mode != 0 && v.headroom > 0);
    var refused := false;
    var armedDropThreshold := if fabric == Roce && !lossyRoce then 0 else v.drop;
    if v.mode != 0 && armedDropThreshold != 0 && v.pause >= armedDropThreshold {
      refused := true;
    }
    if lossyRoce {
      if v.drop >= v.depth {
        refused := true;
      }
    } else if fabric == Eth {
      if v.drop != 0 && v.drop >= v.depth {
        refused := true;
      }
    }
    d := Decision(armedDropThreshold, forced, effectiveVcCredits, refused);
  }

  // ---- the web lab's command line

  /** Arguments that are not the form's own: paths and sizes, none of them one of the options. */
  ghost predicate Unrelated(n: Names, args: seq<string>) {
    forall k :: 0 <= k < |args| ==> !(Flag(n) <= args[k]) && forall o: Opt :: ArgName(args[k]) != n(o)
  }

  lemma {:induction false} ParsedUnrelated(args: seq<string>, name: string, default_: int)
    requires forall k :: 0 <= k < |args| ==> ArgName(args[k]) != name
    ensures Parsed(name, args, default_) == default_
  {
    if args != [] {
      ParsedUnrelated(args[..|args| - 1], name, default_);
    }
  }

  lemma {:induction false} ParsedForm(args: seq<string>, es: Entries, name: string, default_: int)
    requires forall k :: 0 <= k < |args| ==> ArgName(args[k]) != name
    requires Distinct(es) && forall k :: 0 <= k < |es| ==> '=' !in es[k].key
    requires Find(es, name).Some? ==> IsInteger(Find(es, name).value)
    ensures var g := Find(es, name);
      Parsed(name, args + Arguments(es), default_) == if g.Some? then Number(g.value) else default_
  {
    if es == [] {
      ParsedUnrelated(args, name, default_);
      assert args + Arguments(es) == args;
    } else {
      var e, front := es[|es| - 1], es[..|es| - 1];
      var argv := args + Arguments(es);
      assert es == front + [e];
      assert argv == (args + Arguments(front)) + [Argument(e)];
      ArgumentSplits(e);
      FindAppend(front, e, name);
      LastIsNew(front, e);
      ParsedForm(args, front, name, default_);
    }
  }

  // In a dictionary the last entry's key is not among the others.
  lemma LastIsNew(es: Entries, e: Entry<string>)
    requires Distinct(es + [e])
    ensures Find(es, e.key) == None
  {
    var all := es + [e];
    FindHas(es, e.key);
    forall i | 0 <= i < |es| ensures es[i].key != e.key {
      assert all[i].key != all[|es|].key;
    }
  }

  lemma StartsAfter(a: string, p: string, t: string)
    ensures a + p <= a + t <==> p <= t
  {
    if p <= t {
      assert a + t == a + p + t[|p|..];
    }
    if a + p <= a + t {
      assert (a + t)[|a|..] == t && (a + p)[|a|..] == p;
      assert (a + t)[..|a + p|][|a|..] == t[..|p|];
    }
  }

  lemma {:induction false} PrefixOfKey(p: string, key: string, value: string)
    requires '=' !in p
    ensures p <= key + "=" + value <==> p <= key
  {
    if p != [] {
      if key == [] {
        assert p[0] != '=';
      } else {
        assert (key + "=" + value)[1..] == key[1..] + "=" + value;
        PrefixOfKey(p[1..], key[1..], value);
        ConsPrefix(p, key);
        ConsPrefix(p, key + "=" + value);
      }
    }
  }

  lemma ConsPrefix(p: string, t: string)
    requires p != [] && t != []
    ensures p <= t <==> p[0] == t[0] && p[1..] <= t[1..]
  {
    assert p == [p[0]] + p[1..] && t == [t[0]] + t[1..];
    if p[0] == t[0] {
      StartsAfter([p[0]], p[1..], t[1..]);
    }
  }

  lemma FlagOfKey(n: Names, e: Entry<string>)
    requires NamesOk(n)
    ensures Flag(n) <= Argument(e) <==> n(Drop) <= e.key
  {
    assert Argument(e) == "--" + (e.key + "=" + e.value);
    StartsAfter("--", n(Drop), e.key + "=" + e.value);
    PrefixOfKey(n(Drop), e.key, e.value);
  }

  lemma {:induction false} ParsedTail(args: seq<string>, rest: seq<string>, name: string, default_: int)
    requires forall k :: 0 <= k < |rest| ==> ArgName(rest[k]) != name
    ensures Parsed(name, args + rest, default_) == Parsed(name, args, default_)
  {
    if rest == [] {
      assert args + rest == args;
    } else {
      var front := rest[..|rest| - 1];
      assert args + rest == (args + front) + [rest[|rest| - 1]];
      ParsedTail(args, front, name, default_);
    }
  }

  /** The whole command line: arguments before and after those of the form. */
  function CommandLine(args: seq<string>, i: Input, rest: seq<string>): seq<string> {
    args + Arguments(i.cli) + rest
  }

  lemma FormFlag(n: Names, i: Input, args: seq<string>, rest: seq<string>)
    requires Valid(n, i) && Unrelated(n, args) && Unrelated(n, rest)
    ensures var argv := CommandLine(args, i, rest);
      FlagGiven(Flag(n), argv, |argv|) <==> Find(i.cli, n(Drop)).Some?
  {
    var argv := CommandLine(args, i, rest);
    FindHas(i.cli, n(Drop));
    forall k | 0 <= k < |i.cli| ensures Flag(n) <= argv[|args| + k] <==> i.cli[k].key == n(Drop) {
      FlagOfKey(n, i.cli[k]);
      assert argv[|args| + k] == Argument(i.cli[k]);
    }
    if HasKey(i.cli, n(Drop)) {
      var k :| 0 <= k < |i.cli| && i.cli[k].key == n(Drop);
      assert Flag(n) <= argv[|args| + k];
    }
    forall k | 0 <= k < |args| ensures !(Flag(n) <= argv[k]) {
      assert argv[k] == args[k];
    }
    forall k | |args| + |i.cli| <= k < |argv| ensures !(Flag(n) <= argv[k]) {
      assert argv[k] == rest[k - |args| - |i.cli|];
    }
    if FlagGiven(Flag(n), argv, |argv|) {
      var k :| 0 <= k < |argv| && Flag(n) <= argv[k];
      assert i.cli[k - |args|].key == n(Drop);
    }
  }

  lemma FormParsed(n: Names, i: Input, args: seq<string>, rest: seq<string>, o: Opt)
    requires Valid(n, i) && Unrelated(n, args) && Unrelated(n, rest)
    ensures var g := Find(i.cli, n(o));
      Parsed(n(o), CommandLine(args, i, rest), NativeDefault(o)) == if g.Some? then Number(g.value) else NativeDefault(o)
  {
    assert FitsOption(Find(i.cli, n(o)), o);
    ParsedForm(args, i.cli, n(o), NativeDefault(o));
    ParsedTail(args + Arguments(i.cli), rest, n(o), NativeDefault(o));
  }

  lemma FormApplied(n: Names, i: Input, args: seq<string>, rest: seq<string>, o: Opt)
    requires Valid(n, i) && Unrelated(n, args) && Unrelated(n, rest)
    ensures Applied(n, CommandLine(args, i, rest), i.resolved, o) == FormValue(n, i, o, NativeDefault(o))
    ensures Given(n, i, o).Some? ==> Low(o) <= FormValue(n, i, o, NativeDefault(o)) <= High(o)
  {
    FormParsed(n, i, args, rest, o);
    assert FitsOption(Find(i.cli, n(o)), o);
    var p := Find(i.resolved, n(o));
    if (o.Depth? || o.Spray?) && p.Some? {
      assert FitsOption(p, o);
      SmallNumber(o, Number(p.value));
    }
  }

  lemma SmallNumber(o: Opt, x: int)
    requires Low(o) <= x <= High(o)
    ensures U32(x) == x
  {
  }

  /** For Ethernet and RoCE between nodes, the form and the simulator come to the same decision on
      every input the form's ranges allow: the armed threshold, the forced link retry, the credits,
      and a refusal by the form exactly when the simulator would abort on a threshold. */
  lemma FormPredictsNative(n: Names, i: Input, args: seq<string>, rest: seq<string>)
    requires Valid(n, i) && Unrelated(n, args) && Unrelated(n, rest)
    ensures NativeDecision(n, CommandLine(args, i, rest), i.resolved, i.fabric) == FormFrom(i.fabric, FormValues(n, i))
  {
    FormFlag(n, i, args, rest);
    FormApplied(n, i, args, rest, Drop);
    FormApplied(n, i, args, rest, Depth);
    FormApplied(n, i, args, rest, Mode);
    FormApplied(n, i, args, rest, Pause);
    FormApplied(n, i, args, rest, Headroom);
    FormApplied(n, i, args, rest, Credits);
    FormApplied(n, i, args, rest, Buffer);
    FormApplied(n, i, args, rest, Spray);
    var v := NativeValues(n, CommandLine(args, i, rest), i.resolved);
    DecisionsAgree(i.fabric, Find(i.cli, n(Drop)).Some?, v, FormValues(n, i));
  }

  // The two decisions from the numbers alone: an option that was not given has each side's default.
  lemma DecisionsAgree(fabric: Fabric, dropSet: bool, native: Values, form: Values)
    requires native == form.(drop := native.drop)
    requires if dropSet then native.drop == form.drop else native.drop == 8 && form.drop == if fabric == Eth then 8 else 0
    requires 0 <= form.drop && 0 < form.spray && 0 <= form.mode && 0 <= form.buffer <= 1073741824 && 0 < form.credits <= 1073741824
    ensures NativeFrom(fabric, dropSet, native) == FormFrom(fabric, form)
  {
    if form.buffer > 0 {
      ShareFits(form.buffer, form.spray);
    }
  }

  lemma ShareFits(buffer: int, spray: int)
    requires 0 < buffer <= 1073741824 && 0 < spray
    ensures 0 <= buffer / spray <= buffer && U32(buffer / spray) == buffer / spray
  {
  }

  // ---- the command line the web lab builds

  // A key that is none of the options and does not start like the drop threshold's.
  ghost predicate OtherKey(k: string) {
    '=' !in k && !(Name(Drop) <= k) && forall o: Opt :: k != Name(o)
  }

  /** The arguments before the form's: where the files are and how large the run is. */
  function LeadingKeys(): seq<string> {
    ["protocolConfig", "numGpus", "dataSize", "numNodes", "gpusPerNode", "RngRun", "stepTraceFile"]
  }

  predicate TraceKey(k: string) { k == "rdmaTraceFile" || k == "pcieTraceFile" }

  // Options start with "sw", "sp", "vo", "vc" or "pf".
  lemma StartsDifferently(k: string)
    requires |k| >= 2 && '=' !in k
    requires k[0] != 'v' && !(k[0] == 's' && (k[1] == 'w' || k[1] == 'p')) && !(k[0] == 'p' && k[1] == 'f')
    ensures OtherKey(k)
  {
    forall o: Opt ensures k != Name(o) {
      assert Name(o)[0] == 'v' || (Name(o)[0] == 's' && (Name(o)[1] == 'w' || Name(o)[1] == 'p')) || (Name(o)[0] == 'p' && Name(o)[1] == 'f');
    }
    assert Name(Drop)[0] == 'v';
  }

  lemma LeadingOther(k: string)
    requires k in LeadingKeys()
    ensures OtherKey(k)
  {
    StartsDifferently(k);
  }

  lemma TraceOther(k: string)
    requires TraceKey(k)
    ensures OtherKey(k)
  {
    StartsDifferently(k);
  }

  lemma OtherArguments(es: Entries)
    requires NamesOk(Name) && forall k :: 0 <= k < |es| ==> OtherKey(es[k].key)
    ensures Unrelated(Name, Arguments(es))
  {
    forall k | 0 <= k < |es|
      ensures !(Flag(Name) <= Arguments(es)[k]) && forall o: Opt :: ArgName(Arguments(es)[k]) != Name(o)
    {
      FlagOfKey(Name, es[k]);
      ArgumentSplits(es[k]);
    }
  }

  /** With the simulator's own option names, for every command line the web lab builds, the trace
      arguments of detailed RDMA included: both sides decide alike. */
  lemma WebLabPredictsNative(i: Input, leading: Entries, traces: Entries)
    requires Valid(Name, i) && Keys(leading) == LeadingKeys()
    requires forall k :: 0 <= k < |traces| ==> TraceKey(traces[k].key)
    ensures NativeDecision(Name, CommandLine(Arguments(leading), i, Arguments(traces)), i.resolved, i.fabric)
         == FormFrom(i.fabric, FormValues(Name, i))
  {
    forall k | 0 <= k < |leading| ensures OtherKey(leading[k].key) {
      assert Keys(leading)[k] == leading[k].key;
      LeadingOther(leading[k].key);
    }
    forall k | 0 <= k < |traces| ensures OtherKey(traces[k].key) {
      TraceOther(traces[k].key);
    }
    OtherArguments(leading);
    OtherArguments(traces);
    FormPredictsNative(Name, i, Arguments(leading), Arguments(traces));
  }

  // ---- where each number comes from, said with the real names

  function NumberOr(t: Option<string>, otherwise: int): int {
    if t.Some? && IsInteger(t.value) then Number(t.value) else otherwise
  }

  /** The VOQ depth and the chunk size come from the profile before the command line, the other six
      from the command line only. */
  function Sources(i: Input, drop: int): Values {
    var depth, chunk := NumberOr(Find(i.cli, "switchVoqDepth"), 10000), NumberOr(Find(i.cli, "sprayChunkSize"), 131072);
    Values(
      NumberOr(Find(i.cli, "voqDropThreshold"), drop),
      NumberOr(Find(i.resolved, "switchVoqDepth"), depth),
      NumberOr(Find(i.cli, "switchPfcMode"), 0),
      NumberOr(Find(i.cli, "pfcPauseThreshold"), 64),
      NumberOr(Find(i.cli, "pfcHeadroomChunks"), 0),
      NumberOr(Find(i.cli, "vcCredits"), 104857600),
      NumberOr(Find(i.cli, "vcBufferSizeBytes"), 0),
      NumberOr(Find(i.resolved, "sprayChunkSize"), chunk))
  }

  lemma FormSource(i: Input, o: Opt, otherwise: int)
    requires Valid(Name, i)
    ensures FormValue(Name, i, o, otherwise) ==
      if o == Depth || o == Spray then NumberOr(Find(i.resolved, Name(o)), NumberOr(Find(i.cli, Name(o)), otherwise))
      else NumberOr(Find(i.cli, Name(o)), otherwise)
  {
    assert FitsOption(Find(i.cli, Name(o)), o);
  }

  /** The form reads each option from its own source. */
  lemma FormReads(i: Input)
    requires Valid(Name, i)
    ensures FormValues(Name, i) == Sources(i, if i.fabric == Eth then 8 else 0)
  {
    FormSource(i, Drop, if i.fabric == Eth then 8 else 0);
    FormSource(i, Depth, 10000);
    FormSource(i, Mode, 0);
    FormSource(i, Pause, 64);
    FormSource(i, Headroom, 0);
    FormSource(i, Credits, 104857600);
    FormSource(i, Buffer, 0);
    FormSource(i, Spray, 131072);
  }

  lemma NativeSource(i: Input, args: seq<string>, rest: seq<string>, o: Opt)
    requires Valid(Name, i) && Unrelated(Name, args) && Unrelated(Name, rest)
    ensures Applied(Name, CommandLine(args, i, rest), i.resolved, o) ==
      if o == Depth || o == Spray then NumberOr(Find(i.resolved, Name(o)), NumberOr(Find(i.cli, Name(o)), NativeDefault(o)))
      else NumberOr(Find(i.cli, Name(o)), NativeDefault(o))
  {
    FormParsed(Name, i, args, rest, o);
    assert FitsOption(Find(i.cli, Name(o)), o);
    if (o.Depth? || o.Spray?) && Find(i.resolved, Name(o)).Some? {
      assert FitsOption(Find(i.resolved, Name(o)), o);
      SmallNumber(o, Number(Find(i.resolved, Name(o)).value));
    }
  }

  /** The simulator reads each option from the same source, the drop threshold with its own default. */
  lemma NativeReads(i: Input, args: seq<string>, rest: seq<string>)
    requires Valid(Name, i) && Unrelated(Name, args) && Unrelated(Name, rest)
    ensures NativeValues(Name, CommandLine(args, i, rest), i.resolved) == Sources(i, 8)
  {
    NativeSource(i, args, rest, Drop);
    NativeSource(i, args, rest, Depth);
    NativeSource(i, args, rest, Mode);
    NativeSource(i, args, rest, Pause);
    NativeSource(i, args, rest, Headroom);
    NativeSource(i, args, rest, Credits);
    NativeSource(i, args, rest, Buffer);
    NativeSource(i, args, rest, Spray);
  }

  /** A profile's VOQ depth counts: an explicit drop threshold at or above it is refused by the form
      and stops the simulator. */
  lemma ProfileDepthCounts(i: Input, args: seq<string>, rest: seq<string>)
    requires Valid(Name, i) && Unrelated(Name, args) && Unrelated(Name, rest)
    requires Find(i.resolved, "switchVoqDepth").Some? && Find(i.cli, "voqDropThreshold").Some?
    requires IsInteger(Find(i.resolved, "switchVoqDepth").value) && IsInteger(Find(i.cli, "voqDropThreshold").value)
    requires 0 < Number(Find(i.resolved, "switchVoqDepth").value) <= Number(Find(i.cli, "voqDropThreshold").value)
    ensures FormFrom(i.fabric, FormValues(Name, i)).refused
    ensures NativeDecision(Name, CommandLine(args, i, rest), i.resolved, i.fabric).refused
  {
    FormReads(i);
    FormPredictsNative(Name, i, args, rest);
  }

  /** The ranges of the form's fields. */
  lemma Ranges()
    ensures Low(Drop) == 0 && High(Drop) == 999999 && Low(Depth) == 1 && High(Depth) == 1000000
    ensures Low(Mode) == 0 && High(Mode) == 3 && Low(Pause) == 1 && High(Pause) == 999999
    ensures Low(Headroom) == 0 && High(Headroom) == 1000000 && Low(Credits) == 1 && High(Credits) == 1073741824
    ensures Low(Buffer) == 0 && High(Buffer) == 1073741824 && Low(Spray) == 1 && High(Spray) == 67108864
  {
  }

  lemma NameDiffers(o: Opt)
    ensures o != Drop ==> Name(o) != "voqDropThreshold"
    ensures o != Depth ==> Name(o) != "switchVoqDepth"
  {
    assert "voqDropThreshold"[1] == 'o' && "switchVoqDepth"[2] == 'i' && "switchVoqDepth"[6] == 'V';
    assert o == Mode ==> Name(o)[6] == 'P';
    assert o == Spray ==> Name(o)[1] == 'p';
  }

  /** RoCE with an explicit drop threshold of 8 and a profile depth of 4 is a valid input, and refused. */
  lemma SmallProfileDepth()
    ensures var i := Input([Entry("voqDropThreshold", "8")], [Entry("switchVoqDepth", "4")], Roce);
      Valid(Name, i) && FormFrom(Roce, FormValues(Name, i)).refused
  {
    var i := Input([Entry("voqDropThreshold", "8")], [Entry("switchVoqDepth", "4")], Roce);
    DigitValues("8");
    DigitValues("4");
    forall o: Opt ensures FitsOption(Find(i.cli, Name(o)), o) {
      NameDiffers(o);
      assert i.cli[1..] == [];
    }
    NameDiffers(Spray);
    assert i.resolved[1..] == [];
    FormReads(i);
  }

  // ---- the value of a text of digits

  function Pow10(n: nat): nat { if n == 0 then 1 else 10 * Pow10(n - 1) }

  predicate OnlyDigits(t: string) { forall i :: 0 <= i < |t| ==> IsDigit(t[i]) }

  lemma LastDigit(t: string, c: char)
    requires OnlyDigits(t) && IsDigit(c)
    ensures OnlyDigits(t + [c]) && Digits(t + [c]) == 10 * Digits(t) + (c as int - '0' as int)
  {
    assert (t + [c])[..|t|] == t;
  }

  lemma TenTimes(x: int, p: int, y: int)
    ensures 10 * (x * p + y) == x * (10 * p) + 10 * y
  {
  }

  /** Digits have their place values: appending moves the front by as many places. */
  lemma {:induction false} PlaceValue(a: string, b: string)
    requires OnlyDigits(a) && OnlyDigits(b)
    ensures OnlyDigits(a + b) && Digits(a + b) == Digits(a) * Pow10(|b|) + Digits(b)
    decreases |b|
  {
    if b == [] {
      assert a + b == a;
    } else {
      var front, c := b[..|b| - 1], b[|b| - 1];
      PlaceValue(a, front);
      LastDigit(a + front, c);
      LastDigit(front, c);
      assert a + b == (a + front) + [c] && b == front + [c];
      TenTimes(Digits(a), Pow10(|front|), Digits(front));
    }
  }

  /** The ten digits, and a minus sign in front. */
  lemma DigitValues(t: string)
    requires AllDigits(t)
    ensures Digits("0") == 0 && Digits("1") == 1 && Digits("2") == 2 && Digits("3") == 3 && Digits("4") == 4
    ensures Digits("5") == 5 && Digits("6") == 6 && Digits("7") == 7 && Digits("8") == 8 && Digits("9") == 9
    ensures Number(t) == Digits(t) && IsInteger("-" + t) && Number("-" + t) == 0 - Digits(t)
  {
    var none: string := "";
    assert Digits(none) == 0;
    assert "0"[..0] == none && "1"[..0] == none && "2"[..0] == none && "3"[..0] == none && "4"[..0] == none;
    assert "5"[..0] == none && "6"[..0] == none && "7"[..0] == none && "8"[..0] == none && "9"[..0] == none;
    assert ("-" + t)[1..] == t;
    assert IsDigit(t[0]);
  }

  /** How an argument of the command line is written. */
  lemma ArgumentText()
    ensures Argument(Entry("vcCredits", "64")) == "--vcCredits=64" && Flag(Name) == "--voqDropThreshold"
  {
  }
}
