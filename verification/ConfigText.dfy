/** The reader and the writer of configuration text (webui/catalog.py): sections of `key = value`
    lines, read into ordered dictionaries and rendered back for the simulator. */
module ConfigText {
  import opened TextLines

  /** One item of an ordered dictionary. */
  datatype Entry<V> = Entry(key: string, value: V)

  datatype Section = Top | Stack | Op

  type Entries = seq<Entry<string>>
  type Config = map<Section, Entries>

  datatype Error =
    | UnknownSection(line: nat)
    | NoEquals(line: nat)
    | BadKeyOrValue(line: nat)
    | DuplicateKey(line: nat)

  datatype Result<T> = Ok(value: T) | Err(error: Error)

  /** The non-ASCII characters that the regular expression class \w accepts. */
  datatype Alphabet = Alphabet(letters: set<char>)

  predicate Sane(u: Alphabet) {
    forall c :: c in u.letters ==> c >= '\U{80}' && !IsSpace(c)
  }

  predicate IsLetter(c: char) { 'A' <= c <= 'Z' || 'a' <= c <= 'z' }

  predicate IsWord(u: Alphabet, c: char) {
    IsLetter(c) || '0' <= c <= '9' || c == '_' || c in u.letters
  }

  lemma LetterTable(c: char)
    ensures IsLetter(c) <==> c in "abcdefghijklmnopqrstuvwxyz" || c in "ABCDEFGHIJKLMNOPQRSTUVWXYZ"
    ensures '0' <= c <= '9' <==> c in "0123456789"
  {
  }

  predicate KeyOk(u: Alphabet, k: string) {
    k != [] && (IsLetter(k[0]) || k[0] == '_') && forall i :: 1 <= i < |k| ==> IsWord(u, k[i]) || k[i] == '.'
  }

  predicate ValueOk(v: string) {
    v != [] && '\0' !in v
  }

  predicate HasKey<V>(es: seq<Entry<V>>, k: string) {
    exists i :: 0 <= i < |es| && es[i].key == k
  }

  // ---- one line

  datatype Line = Blank | Header(name: string) | Plain | Pair(key: string, value: string)

  function Clean(raw: string): string {
    Strip(raw[..FirstOf(raw, '#')])
  }

  /** What a line says, before any check of its parts. */
  function Classify(sections: bool, raw: string): Line {
    var line := Clean(raw);
    if line == [] || line[0] == ';' then Blank
    else if sections && line[0] == '[' && line[|line| - 1] == ']' then Header(Strip(Inside(line)))
    else
      var k := FirstOf(line, '=');
      if k == |line| then Plain else Pair(Strip(line[..k]), Strip(line[k + 1..]))
  }

  // line[1:-1]
  function Inside(line: string): string {
    if |line| >= 2 then line[1..|line| - 1] else []
  }

  function SectionNamed(name: string): Section {
    if name == "stack" then Stack else if name == "op" then Op else Top
  }

  /** The dictionaries filled so far and the section that is open. */
  datatype State = State(config: Config, section: Section)

  function Current(st: State): Entries {
    if st.section in st.config then st.config[st.section] else []
  }

  function Step(u: Alphabet, sections: bool, st: State, raw: string, number: nat): (r: Result<State>)
    ensures r.Err? ==> r.error.line == number
  {
    match Classify(sections, raw)
    case Blank => Ok(st)
    case Header(name) =>
      var s := SectionNamed(name);
      if s == Top then Err(UnknownSection(number))
      else Ok(State(if s in st.config then st.config else st.config[s := []], s))
    case Plain => Err(NoEquals(number))
    case Pair(key, value) =>
      if !KeyOk(u, key) || !ValueOk(value) then Err(BadKeyOrValue(number))
      else if HasKey(Current(st), key) then Err(DuplicateKey(number))
      else Ok(st.(config := st.config[st.section := Current(st) + [Entry(key, value)]]))
  }

  type Reader = (State, string, nat) -> Result<State>

  function LineReader(u: Alphabet, sections: bool): Reader {
    (st: State, raw: string, number: nat) => Step(u, sections, st, raw, number)
  }

  /** Reading lines, the first of which has the given number, up to the first refusal. */
  function Fold(f: Reader, st: State, lines: seq<string>, number: nat): Result<State>
    decreases |lines|
  {
    if lines == [] then Ok(st)
    else
      var next := f(st, lines[0], number);
      if next.Err? then next else Fold(f, next.value, lines[1..], number + 1)
  }

  function Begin(): State { State(map[Top := []], Top) }

  function ConfigOf(r: Result<State>): Result<Config> {
    if r.Ok? then Ok(r.value.config) else Err(r.error)
  }

  function Read(u: Alphabet, sections: bool, text: string): Result<Config> {
    ConfigOf(Fold(LineReader(u, sections), Begin(), Lines(text), 1))
  }

  lemma {:induction false} FoldAppend(f: Reader, st: State, a: seq<string>, b: seq<string>, n: nat)
    ensures Fold(f, st, a + b, n) ==
      (var r := Fold(f, st, a, n); if r.Err? then r else Fold(f, r.value, b, n + |a|))
    decreases |a|
  {
    if a == [] {
      assert a + b == b;
    } else {
      assert (a + b)[1..] == a[1..] + b;
      var next := f(st, a[0], n);
      if next.Ok? {
        FoldAppend(f, next.value, a[1..], b, n + 1);
      }
    }
  }

  lemma FoldCons(f: Reader, st: State, line: string, rest: seq<string>, n: nat)
    ensures Fold(f, st, [line] + rest, n) ==
      (var next := f(st, line, n); if next.Err? then next else Fold(f, next.value, rest, n + 1))
  {
    assert ([line] + rest)[1..] == rest;
  }

  lemma {:induction false} FoldError(f: Reader, st: State, lines: seq<string>, n: nat) returns (k: nat)
    requires Fold(f, st, lines, n).Err?
    ensures k < |lines| && Fold(f, st, lines[..k], n).Ok?
    ensures f(Fold(f, st, lines[..k], n).value, lines[k], n + k) == Fold(f, st, lines, n)
    decreases |lines|
  {
    var next := f(st, lines[0], n);
    if next.Err? {
      k := 0;
    } else {
      var m := FoldError(f, next.value, lines[1..], n + 1);
      k := m + 1;
      assert lines[..k] == [lines[0]] + lines[1..][..m];
      FoldCons(f, st, lines[0], lines[1..][..m], n);
    }
  }

  /** A refusal names the first line that cannot be read: everything before it can. */
  lemma ErrorIsFirst(u: Alphabet, sections: bool, text: string) returns (k: nat)
    requires Read(u, sections, text).Err?
    ensures k < |Lines(text)| && Read(u, sections, text).error.line == k + 1
    ensures Fold(LineReader(u, sections), Begin(), Lines(text)[..k], 1).Ok?
  {
    k := FoldError(LineReader(u, sections), Begin(), Lines(text), 1);
    var f := LineReader(u, sections);
    var st := Fold(f, Begin(), Lines(text)[..k], 1).value;
    assert f(st, Lines(text)[k], 1 + k) == Step(u, sections, st, Lines(text)[k], 1 + k);
  }

  // Reading has come to line i in state st; `whole` is what the reading will give.
  ghost predicate Pending(f: Reader, lines: seq<string>, i: nat, st: State, whole: Result<State>) {
    i <= |lines| && whole == Fold(f, st, lines[i..], i + 1)
  }

  lemma ReadNext(f: Reader, lines: seq<string>, i: nat, st: State, whole: Result<State>)
    requires Pending(f, lines, i, st, whole) && i < |lines|
    ensures var next := f(st, lines[i], i + 1);
      if next.Err? then whole == next else Pending(f, lines, i + 1, next.value, whole)
  {
    assert lines[i..][0] == lines[i] && lines[i..][1..] == lines[i + 1..];
  }

  lemma ReadStarts(u: Alphabet, sections: bool, text: string) returns (whole: Result<State>)
    ensures Pending(LineReader(u, sections), Lines(text), 0, Begin(), whole) && Read(u, sections, text) == ConfigOf(whole)
  {
    whole := Fold(LineReader(u, sections), Begin(), Lines(text), 1);
    assert Lines(text)[0..] == Lines(text);
  }

  lemma ReadEnds(f: Reader, lines: seq<string>, st: State, whole: Result<State>)
    requires Pending(f, lines, |lines|, st, whole)
    ensures whole == Ok(st)
  {
  }

  // The three ways the loop below reads a line, each as one step.

  lemma BlankStep(u: Alphabet, sections: bool, st: State, raw: string, n: nat)
    requires Comment(raw)
    ensures LineReader(u, sections)(st, raw, n) == Ok(st)
  {
  }

  predicate IsHeader(sections: bool, line: string) {
    sections && line != [] && line[0] == '[' && line[|line| - 1] == ']'
  }

  lemma HeaderStep(u: Alphabet, sections: bool, st: State, raw: string, n: nat)
    requires IsHeader(sections, Clean(raw))
    ensures var name := Strip(Inside(Clean(raw))); var s := SectionNamed(name);
      LineReader(u, sections)(st, raw, n) ==
        if s == Top then Err(UnknownSection(n))
        else Ok(State(if s in st.config then st.config else st.config[s := []], s))
  {
  }

  lemma PairStep(u: Alphabet, sections: bool, st: State, raw: string, n: nat)
    requires Clean(raw) != [] && Clean(raw)[0] != ';' && !IsHeader(sections, Clean(raw))
    ensures var line := Clean(raw); var k := FirstOf(line, '=');
      && ('=' in line <==> k < |line|)
      && LineReader(u, sections)(st, raw, n) ==
        if k == |line| then Err(NoEquals(n))
        else
          var key, value := Strip(line[..k]), Strip(line[k + 1..]);
          if !KeyOk(u, key) || !ValueOk(value) then Err(BadKeyOrValue(n))
          else if HasKey(Current(st), key) then Err(DuplicateKey(n))
          else Ok(State(st.config[st.section := Current(st) + [Entry(key, value)]], st.section))
  {
    var line := Clean(raw);
    assert line[..|line|] == line;
  }

  /** parse_values. */
  method ParseValues(u: Alphabet, text: string, sections: bool) returns (r: Result<Config>)
    ensures r == Read(u, sections, text)
  {
    var result: Config := map[Top := []];
    var section := Top;
    var lines := Lines(text);
    var i := 0;
    ghost var f := LineReader(u, sections);
    ghost var whole := ReadStarts(u, sections, text);
    while i < |lines|
      invariant 0 <= i <= |lines|
      invariant section in result
      invariant Pending(f, lines, i, State(result, section), whole)
    {
      var raw := lines[i];
      ghost var st := State(result, section);
      ReadNext(f, lines, i, st, whole);
      i := i + 1;
      var line := Clean(raw);
      if line == [] || line[0] == ';' {
        BlankStep(u, sections, st, raw, i);
        continue;
      }
      if sections && line[0] == '[' && line[|line| - 1] == ']' {
        HeaderStep(u, sections, st, raw, i);
        section := SectionNamed(Strip(Inside(line)));
        if section == Top {
          return Err(UnknownSection(i));
        }
        if section !in result {
          result := result[section := []];
        }
        continue;
      }
      PairStep(u, sections, st, raw, i);
      if '=' !in line {
        return Err(NoEquals(i));
      }
      var k := FirstOf(line, '=');
      var key, value := Strip(line[..k]), Strip(line[k + 1..]);
      if !KeyOk(u, key) || !ValueOk(value) {
        return Err(BadKeyOrValue(i));
      }
      if HasKey(result[section], key) {
        return Err(DuplicateKey(i));
      }
      result := result[section := result[section] + [Entry(key, value)]];
    }
    ReadEnds(f, lines, State(result, section), whole);
    r := Ok(result);
  }

  // ---- comments

  predicate SameOutcome(a: Result<State>, b: Result<State>) {
    if a.Ok? then a == b else b.Err?
  }

  lemma {:induction false} NumbersDontMatter(u: Alphabet, sections: bool, st: State, lines: seq<string>, n: nat, m: nat)
    ensures SameOutcome(Fold(LineReader(u, sections), st, lines, n), Fold(LineReader(u, sections), st, lines, m))
    decreases |lines|
  {
    if lines != [] {
      var next := Step(u, sections, st, lines[0], n);
      SameStep(u, sections, st, lines[0], n, m);
      if next.Ok? {
        NumbersDontMatter(u, sections, next.value, lines[1..], n + 1, m + 1);
      }
    }
  }

  lemma SameStep(u: Alphabet, sections: bool, st: State, raw: string, n: nat, m: nat)
    ensures SameOutcome(LineReader(u, sections)(st, raw, n), LineReader(u, sections)(st, raw, m))
  {
  }

  // A line that is empty up to its # comment, or starts with a semicolon.
  predicate Comment(raw: string) {
    Clean(raw) == [] || Clean(raw)[0] == ';'
  }

  /** A blank or comment line may stand anywhere: it changes neither what is accepted nor what is
      read. */
  lemma CommentsDontMatter(u: Alphabet, sections: bool, a: seq<string>, c: string, b: seq<string>)
    requires Comment(c)
    ensures SameOutcome(Fold(LineReader(u, sections), Begin(), a + b, 1),
                        Fold(LineReader(u, sections), Begin(), a + [c] + b, 1))
  {
    var f := LineReader(u, sections);
    FoldAppend(f, Begin(), a, b, 1);
    FoldAppend(f, Begin(), a, [c] + b, 1);
    assert a + [c] + b == a + ([c] + b);
    var r := Fold(f, Begin(), a, 1);
    if r.Ok? {
      BlankStep(u, sections, r.value, c, 1 + |a|);
      FoldCons(f, r.value, c, b, 1 + |a|);
      NumbersDontMatter(u, sections, r.value, b, 1 + |a|, 1 + |a| + 1);
    }
  }

  // ---- what a line of each kind looks like

  /** The ASCII word characters are letters, digits and the underscore. */
  lemma WordTable(u: Alphabet, c: char)
    requires Sane(u) && c < '\U{80}'
    ensures IsWord(u, c) <==>
      c in "abcdefghijklmnopqrstuvwxyz" || c in "ABCDEFGHIJKLMNOPQRSTUVWXYZ" || c in "0123456789" || c == '_'
  {
    LetterTable(c);
  }

  /** A key is a letter or underscore, and then word characters and dots. */
  lemma KeyTable(u: Alphabet, c: char, rest: string)
    ensures KeyOk(u, [c] + rest) <==>
      (IsLetter(c) || c == '_') && forall i :: 0 <= i < |rest| ==> IsWord(u, rest[i]) || rest[i] == '.'
    ensures !KeyOk(u, "")
  {
    var k := [c] + rest;
    assert forall i :: 0 <= i < |rest| ==> rest[i] == k[i + 1];
    assert forall i :: 1 <= i < |k| ==> k[i] == rest[i - 1];
  }

  /** A value is any text that is not empty and holds no NUL. */
  lemma ValueTable(v: string)
    ensures ValueOk(v) <==> v != "" && '\0' !in v
  {
  }

  /** A line that is empty up to a comment, or starts with a semicolon, says nothing. */
  lemma CommentRead(raw: string, sections: bool)
    requires Clean(raw) == "" || Clean(raw)[0] == ';'
    ensures Classify(sections, raw) == Blank && Comment(raw)
  {
  }

  /** The text of a line goes up to the first number sign, without the space around it. */
  lemma CleanMeans(s1: string, t: string, s2: string, comment: string)
    requires AllIn(Spaces, s1) && AllIn(Spaces, s2) && t != [] && Trimmed(t) && '#' !in t
    requires comment == [] || comment[0] == '#'
    ensures Clean(s1 + t + s2 + comment) == t
  {
    var front := s1 + t + s2;
    var raw := front + comment;
    assert raw[..|front|] == front;
    assert '#' !in s1 && '#' !in s2;
    FirstOfIs(raw, '#', |front|);
    TrimOf(Spaces, s1, t, s2);
  }

  /** A section header: brackets around a name, space allowed. */
  lemma HeaderRead(raw: string, s: string, name: string, e: string)
    requires Clean(raw) == "[" + s + name + e + "]" && AllIn(Spaces, s) && AllIn(Spaces, e) && name != [] && Trimmed(name)
    ensures Classify(true, raw) == Header(name)
  {
    var line := Clean(raw);
    assert line[0] == '[' && line[|line| - 1] == ']';
    assert Inside(line) == s + name + e;
    TrimOf(Spaces, s, name, e);
  }

  /** A pair: a key, an equals sign and the rest of the line, equals signs included. */
  lemma PairRead(raw: string, sections: bool, key: string, s: string, e: string, value: string)
    requires Clean(raw) == key + s + "=" + e + value && AllIn(Spaces, s) && AllIn(Spaces, e)
    requires key != [] && Trimmed(key) && '=' !in key && key[0] != '[' && key[0] != ';'
    requires value != [] && Trimmed(value)
    ensures Classify(sections, raw) == Pair(key, value)
  {
    var line, left := Clean(raw), key + s;
    assert line == left + "=" + (e + value);
    assert line[0] == key[0];
    assert '=' !in s;
    assert line[..|left|] == left && line[|left|] == '=' && line[|left| + 1..] == e + value;
    FirstOfIs(line, '=', |left|);
    TrimOf(Spaces, "", key, s);
    assert "" + key + s == left;
    TrimOf(Spaces, e, value, "");
    assert e + value + "" == e + value;
  }

  /** Any other line without an equals sign is refused. */
  lemma PlainRead(raw: string, sections: bool)
    requires Clean(raw) != [] && Clean(raw)[0] != ';' && '=' !in Clean(raw)
    requires sections ==> !(Clean(raw)[0] == '[' && Clean(raw)[|Clean(raw)| - 1] == ']')
    ensures Classify(sections, raw) == Plain
  {
    var line := Clean(raw);
    assert line[..|line|] == line;
    FirstOfIs(line, '=', |line|);
  }

  /** Each refusal has its own reason. */
  lemma RefusalMeans(u: Alphabet, sections: bool, st: State, raw: string, n: nat)
    requires Step(u, sections, st, raw, n).Err?
    ensures var x := Classify(sections, raw);
      match Step(u, sections, st, raw, n).error
      case UnknownSection(_) => x.Header? && x.name != "stack" && x.name != "op"
      case NoEquals(_) => x == Plain
      case BadKeyOrValue(_) => x.Pair? && (!KeyOk(u, x.key) || x.value == "" || '\0' in x.value)
      case DuplicateKey(_) => x.Pair? && KeyOk(u, x.key) && HasKey(Current(st), x.key)
  {
  }

  // ---- the dictionaries a reading gives, and every value that can be rendered

  predicate EntryOk(u: Alphabet, e: Entry<string>) {
    && KeyOk(u, e.key) && ValueOk(e.value) && Trimmed(e.value)
    && '#' !in e.value && NoBreak(e.value)
  }

  predicate Distinct<V>(es: seq<Entry<V>>) {
    forall i, j :: 0 <= i < j < |es| ==> es[i].key != es[j].key
  }

  predicate EntriesOk(u: Alphabet, es: Entries) {
    Distinct(es) && forall i :: 0 <= i < |es| ==> EntryOk(u, es[i])
  }

  ghost predicate ConfigOk(u: Alphabet, c: Config) {
    forall s :: s in c ==> EntriesOk(u, c[s])
  }

  lemma WithinNoBreak(a: string, t: string)
    requires Within(a, t) && NoBreak(t)
    ensures NoBreak(a)
  {
    forall i | 0 <= i < |a| ensures !IsBreak(a[i]) {
      assert a[i] in t;
    }
  }

  lemma PairOk(u: Alphabet, sections: bool, raw: string)
    requires NoBreak(raw) && Classify(sections, raw).Pair?
    requires KeyOk(u, Classify(sections, raw).key) && ValueOk(Classify(sections, raw).value)
    ensures EntryOk(u, Entry(Classify(sections, raw).key, Classify(sections, raw).value))
  {
    var cut := raw[..FirstOf(raw, '#')];
    StripGives(cut);
    var line := Strip(cut);
    var k := FirstOf(line, '=');
    var value := line[k + 1..];
    StripGives(value);
    assert Within(value, line) && Within(Strip(value), cut);
    WithinNoBreak(Strip(value), cut);
  }

  lemma StepOk(u: Alphabet, sections: bool, st: State, raw: string, n: nat)
    requires ConfigOk(u, st.config) && NoBreak(raw) && Step(u, sections, st, raw, n).Ok?
    ensures ConfigOk(u, Step(u, sections, st, raw, n).value.config)
    ensures st.config.Keys <= Step(u, sections, st, raw, n).value.config.Keys
  {
    var c := Classify(sections, raw);
    if c.Pair? {
      PairOk(u, sections, raw);
      AppendOk(u, Current(st), Entry(c.key, c.value));
    }
  }

  lemma AppendOk(u: Alphabet, es: Entries, e: Entry<string>)
    requires EntriesOk(u, es) && EntryOk(u, e) && !HasKey(es, e.key)
    ensures EntriesOk(u, es + [e])
  {
    var all := es + [e];
    forall i, j | 0 <= i < j < |all| ensures all[i].key != all[j].key {
      assert all[i] == es[i];
      assert j < |es| ==> all[j] == es[j];
    }
  }

  lemma {:induction false} ReadOk(u: Alphabet, sections: bool, st: State, lines: seq<string>, n: nat)
    requires ConfigOk(u, st.config) && (forall i :: 0 <= i < |lines| ==> NoBreak(lines[i]))
    ensures var r := Fold(LineReader(u, sections), st, lines, n);
      r.Ok? ==> ConfigOk(u, r.value.config) && st.config.Keys <= r.value.config.Keys
    decreases |lines|
  {
    if lines != [] {
      var next := Step(u, sections, st, lines[0], n);
      if next.Ok? {
        StepOk(u, sections, st, lines[0], n);
        ReadOk(u, sections, next.value, lines[1..], n + 1);
      }
    }
  }

  /** Whatever text the reader accepts, each section's keys are well formed and distinct and its
      values trimmed, non-empty and free of comments, breaks and NULs. */
  lemma ReadGivesOk(u: Alphabet, sections: bool, text: string)
    requires Read(u, sections, text).Ok?
    ensures ConfigOk(u, Read(u, sections, text).value)
    ensures Top in Read(u, sections, text).value
  {
    ReadOk(u, sections, Begin(), Lines(text), 1);
  }

  // ---- rendering

  function RenderEntry(e: Entry<string>): string {
    e.key + " = " + e.value
  }

  function RenderLines(es: Entries): seq<string> {
    seq(|es|, i requires 0 <= i < |es| => RenderEntry(es[i]))
  }

  function Join(ls: seq<string>, sep: string): string {
    if ls == [] then "" else if |ls| == 1 then ls[0] else ls[0] + sep + Join(ls[1..], sep)
  }

  function NameOf(s: Section): string {
    match s case Top => "" case Stack => "stack" case Op => "op"
  }

  function RenderHeader(s: Section): string { "[" + NameOf(s) + "]" }

  function RenderSection(s: Section, es: Entries): string {
    RenderHeader(s) + "\n" + Join(RenderLines(es), "\n")
  }

  function Render(stack: Entries, op: Entries): string {
    Join([RenderSection(Stack, stack), RenderSection(Op, op)], "\n\n") + "\n"
  }

  lemma {:induction false} JoinIsUnlines(ls: seq<string>)
    requires ls != []
    ensures Join(ls, "\n") + "\n" == Unlines(ls)
  {
    if |ls| > 1 {
      JoinIsUnlines(ls[1..]);
      assert Unlines(ls) == ls[0] + "\n" + (Join(ls[1..], "\n") + "\n");
    } else {
      assert Unlines(ls[1..]) == "";
    }
  }

  // The lines a section is rendered to; an empty section leaves an empty line.
  function BodyLines(es: Entries): seq<string> {
    if es == [] then [""] else RenderLines(es)
  }

  function SectionLines(s: Section, es: Entries): seq<string> {
    [RenderHeader(s)] + BodyLines(es)
  }

  lemma SectionIsUnlines(s: Section, es: Entries)
    ensures RenderSection(s, es) + "\n" == Unlines(SectionLines(s, es))
  {
    JoinIsUnlines(BodyLines(es));
    assert SectionLines(s, es)[1..] == BodyLines(es);
    assert RenderSection(s, es) + "\n" == RenderHeader(s) + "\n" + (Join(BodyLines(es), "\n") + "\n");
  }

  lemma JoinTwo(a: string, b: string)
    ensures Join([a, b], "\n\n") + "\n" == (a + "\n") + "\n" + (b + "\n")
  {
    assert [a, b][1..] == [b];
    assert Join([b], "\n\n") == b;
    assert Join([a, b], "\n\n") == a + "\n\n" + b;
    assert "\n\n" == "\n" + "\n";
  }

  lemma RenderIsUnlines(stack: Entries, op: Entries)
    ensures Render(stack, op) == Unlines(SectionLines(Stack, stack) + [""] + SectionLines(Op, op))
  {
    SectionIsUnlines(Stack, stack);
    SectionIsUnlines(Op, op);
    var a, b := RenderSection(Stack, stack), RenderSection(Op, op);
    JoinTwo(a, b);
    UnlinesAppend(SectionLines(Stack, stack) + [""], SectionLines(Op, op));
    UnlinesAppend(SectionLines(Stack, stack), [""]);
    assert Unlines([""]) == "\n" by {
      assert [""][1..] == [] && Unlines([]) == "";
    }
  }

  // ---- reading a rendered line

  lemma KeyHas(u: Alphabet, k: string, c: char)
    requires Sane(u) && KeyOk(u, k) && c in k
    ensures IsWord(u, c) || c == '.'
    ensures !IsSpace(c) && !IsBreak(c) && c != '=' && c != '#'
  {
  }

  lemma EntryText(u: Alphabet, e: Entry<string>)
    requires Sane(u) && EntryOk(u, e)
    ensures Trimmed(e.key) && '=' !in e.key && '#' !in e.key
    ensures NoBreak(RenderEntry(e)) && Trimmed(RenderEntry(e)) && '#' !in RenderEntry(e)
  {
    forall c | c in e.key ensures !IsSpace(c) && !IsBreak(c) && c != '=' && c != '#' {
      KeyHas(u, e.key, c);
    }
    assert e.key[0] in e.key && e.key[|e.key| - 1] in e.key;
    var t := RenderEntry(e);
    assert t[0] == e.key[0] && t[|t| - 1] == e.value[|e.value| - 1];
    forall i | 0 <= i < |t| ensures !IsBreak(t[i]) {
      assert t[i] in e.key || t[i] in " = " || t[i] in e.value;
    }
  }

  lemma CleanText(t: string)
    requires Trimmed(t) && '#' !in t
    ensures Clean(t) == t
  {
    assert t[..|t|] == t;
    FirstOfIs(t, '#', |t|);
    StripTrimmed(t);
  }

  lemma SplitEntry(u: Alphabet, e: Entry<string>)
    requires Sane(u) && EntryOk(u, e)
    ensures var t := RenderEntry(e); var k := FirstOf(t, '=');
      k < |t| && t[..k] == e.key + " " && t[k + 1..] == " " + e.value
  {
    var t := RenderEntry(e);
    EntryText(u, e);
    var k := |e.key| + 1;
    assert t[..k] == e.key + " " && t[k] == '=' && t[k + 1..] == " " + e.value;
    FirstOfIs(t, '=', k);
  }

  lemma ClassifyEntry(u: Alphabet, e: Entry<string>)
    requires Sane(u) && EntryOk(u, e)
    ensures Classify(true, RenderEntry(e)) == Pair(e.key, e.value)
  {
    var t := RenderEntry(e);
    EntryText(u, e);
    CleanText(t);
    SplitEntry(u, e);
    assert t[0] == e.key[0] != '[' && t[0] != ';';
    StripTrimmed(e.key);
    StripTrimmed(e.value);
  }

  lemma HeaderText(s: Section)
    requires s != Top
    ensures NoBreak(RenderHeader(s)) && Trimmed(RenderHeader(s)) && '#' !in RenderHeader(s)
    ensures Trimmed(NameOf(s)) && SectionNamed(NameOf(s)) == s
  {
    var name, t := NameOf(s), RenderHeader(s);
    assert t[0] == '[' && t[|t| - 1] == ']';
    assert '#' !in name && NoBreak(name);
  }

  lemma ClassifyHeader(s: Section)
    requires s != Top
    ensures Classify(true, RenderHeader(s)) == Header(NameOf(s))
  {
    HeaderText(s);
    CleanText(RenderHeader(s));
    assert Inside(RenderHeader(s)) == NameOf(s);
    StripTrimmed(NameOf(s));
  }

  lemma ClassifyEmpty()
    ensures Classify(true, "") == Blank
  {
    CleanText("");
  }

  lemma StepEntry(u: Alphabet, st: State, es: Entries, from: nat, n: nat)
    requires Sane(u) && EntriesOk(u, es) && from < |es|
    requires Current(st) == es[..from]
    ensures Step(u, true, st, RenderEntry(es[from]), n) == Ok(st.(config := st.config[st.section := es[..from + 1]]))
  {
    ClassifyEntry(u, es[from]);
    assert es[..from] + [Entry(es[from].key, es[from].value)] == es[..from + 1];
    assert !HasKey(es[..from], es[from].key);
  }

  // Rendered entries are appended one by one, in order.
  lemma {:induction false} ReadEntries(u: Alphabet, st: State, es: Entries, from: nat, n: nat)
    requires Sane(u) && EntriesOk(u, es) && from <= |es|
    requires st.section in st.config && Current(st) == es[..from]
    ensures Fold(LineReader(u, true), st, RenderLines(es)[from..], n) == Ok(st.(config := st.config[st.section := es]))
    decreases |es| - from
  {
    var rest := RenderLines(es)[from..];
    if from == |es| {
      assert es[..from] == es;
      assert st.config[st.section := es] == st.config;
    } else {
      assert rest[0] == RenderEntry(es[from]) && rest[1..] == RenderLines(es)[from + 1..];
      StepEntry(u, st, es, from, n);
      var st' := st.(config := st.config[st.section := es[..from + 1]]);
      ReadEntries(u, st', es, from + 1, n + 1);
      assert st'.config[st'.section := es] == st.config[st.section := es];
    }
  }

  lemma StepHeader(u: Alphabet, st: State, s: Section, n: nat)
    requires s != Top && s !in st.config
    ensures LineReader(u, true)(st, RenderHeader(s), n) == Ok(State(st.config[s := []], s))
  {
    HeaderText(s);
    ClassifyHeader(s);
  }

  lemma ReadBody(u: Alphabet, st: State, es: Entries, n: nat)
    requires Sane(u) && EntriesOk(u, es) && st.section in st.config && Current(st) == []
    ensures Fold(LineReader(u, true), st, BodyLines(es), n)
         == Ok(st.(config := st.config[st.section := es]))
  {
    if es == [] {
      ReadEmptyLine(u, st, n);
      assert st.config[st.section := es] == st.config;
    } else {
      assert RenderLines(es) == RenderLines(es)[0..];
      ReadEntries(u, st, es, 0, n);
    }
  }

  lemma ReadSection(u: Alphabet, st: State, s: Section, es: Entries, n: nat)
    requires Sane(u) && EntriesOk(u, es) && s != Top && s !in st.config
    ensures Fold(LineReader(u, true), st, SectionLines(s, es), n) == Ok(State(st.config[s := es], s))
  {
    var st' := State(st.config[s := []], s);
    StepHeader(u, st, s, n);
    ReadBody(u, st', es, n + 1);
    FoldCons(LineReader(u, true), st, RenderHeader(s), BodyLines(es), n);
    assert st'.config[s := es] == st.config[s := es];
  }

  lemma SectionNoBreak(u: Alphabet, s: Section, es: Entries)
    requires Sane(u) && EntriesOk(u, es) && s != Top
    ensures forall i :: 0 <= i < |SectionLines(s, es)| ==> NoBreak(SectionLines(s, es)[i])
  {
    HeaderText(s);
    forall i | 0 <= i < |es| ensures NoBreak(RenderLines(es)[i]) {
      EntryText(u, es[i]);
    }
  }

  lemma FoldTwo(f: Reader, st: State, a: seq<string>, b: seq<string>, s1: State, s2: State)
    requires Fold(f, st, a, 1) == Ok(s1) && Fold(f, s1, b, 1 + |a|) == Ok(s2)
    ensures Fold(f, st, a + b, 1) == Ok(s2)
  {
    FoldAppend(f, st, a, b, 1);
  }

  lemma ReadStack(u: Alphabet, lines: seq<string>, stack: Entries)
    requires Sane(u) && EntriesOk(u, stack) && lines == SectionLines(Stack, stack)
    ensures Fold(LineReader(u, true), Begin(), lines + [""], 1) == Ok(State(map[Top := [], Stack := stack], Stack))
  {
    var s1 := State(map[Top := [], Stack := stack], Stack);
    ReadSection(u, Begin(), Stack, stack, 1);
    assert s1.config == Begin().config[Stack := stack];
    ReadEmptyLine(u, s1, 1 + |lines|);
    FoldTwo(LineReader(u, true), Begin(), lines, [""], s1, s1);
  }

  lemma ReadStackOp(u: Alphabet, first: seq<string>, second: seq<string>, stack: Entries, op: Entries)
    requires Sane(u) && EntriesOk(u, op) && second == SectionLines(Op, op)
    requires Fold(LineReader(u, true), Begin(), first, 1) == Ok(State(map[Top := [], Stack := stack], Stack))
    ensures Fold(LineReader(u, true), Begin(), first + second, 1)
         == Ok(State(map[Top := [], Stack := stack, Op := op], Op))
  {
    var s1 := State(map[Top := [], Stack := stack], Stack);
    ReadSection(u, s1, Op, op, 1 + |first|);
    assert s1.config[Op := op] == map[Top := [], Stack := stack, Op := op];
    FoldTwo(LineReader(u, true), Begin(), first, second, s1, State(s1.config[Op := op], Op));
  }

  lemma ReadEmptyLine(u: Alphabet, st: State, n: nat)
    ensures Fold(LineReader(u, true), st, [""], n) == Ok(st)
  {
    ClassifyEmpty();
    assert [""][1..] == [];
  }

  lemma RenderedLines(u: Alphabet, stack: Entries, op: Entries)
    requires Sane(u) && EntriesOk(u, stack) && EntriesOk(u, op)
    ensures Lines(Render(stack, op)) == SectionLines(Stack, stack) + [""] + SectionLines(Op, op)
  {
    RenderIsUnlines(stack, op);
    SectionNoBreak(u, Stack, stack);
    SectionNoBreak(u, Op, op);
    LinesOfUnlines(SectionLines(Stack, stack) + [""] + SectionLines(Op, op));
  }

  /** Reading back what was rendered gives the same entries in the same order, in exactly the two
      sections; values may contain "=", "[" and ";". */
  lemma RoundTrip(u: Alphabet, stack: Entries, op: Entries)
    requires Sane(u) && EntriesOk(u, stack) && EntriesOk(u, op)
    ensures Read(u, true, Render(stack, op)) == Ok(map[Top := [], Stack := stack, Op := op])
  {
    RenderedLines(u, stack, op);
    ReadStack(u, SectionLines(Stack, stack), stack);
    ReadStackOp(u, SectionLines(Stack, stack) + [""], SectionLines(Op, op), stack, op);
  }

  /** How a configuration is written out: both sections under their headers with a blank line between
      them, and one line for each entry. */
  lemma RenderedText(a: Entry<string>, b: Entry<string>, c: Entry<string>)
    ensures var x, y, z := a.key + " = " + a.value, b.key + " = " + b.value, c.key + " = " + c.value;
      Render([a, b], [c]) == ("[stack]" + "\n" + (x + "\n" + y)) + "\n\n" + ("[op]" + "\n" + z) + "\n"
  {
    assert RenderHeader(Stack) == "[stack]" && RenderHeader(Op) == "[op]";
    assert RenderLines([a, b]) == [RenderEntry(a), RenderEntry(b)] && RenderLines([c]) == [RenderEntry(c)];
    JoinPair(RenderEntry(a), RenderEntry(b), "\n");
    JoinPair(RenderEntry(c), RenderEntry(c), "\n");
    JoinPair(RenderSection(Stack, [a, b]), RenderSection(Op, [c]), "\n\n");
  }

  lemma JoinPair(a: string, b: string, sep: string)
    ensures Join([a, b], sep) == a + sep + b && Join([a], sep) == a
  {
    assert [a, b][1..] == [b];
  }
}
