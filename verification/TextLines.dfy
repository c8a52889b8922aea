/** The string operations the configuration reader uses, with Python's character classes:
    splitlines, strip, and splitting at the first occurrence of a character. */
module TextLines {

  /** The characters str.isspace accepts. */
  predicate IsSpace(c: char) {
    || '\t' <= c <= '\r' || '\U{1c}' <= c <= ' ' || c == '\U{85}' || c == '\U{a0}' || c == '\U{1680}'
    || '\U{2000}' <= c <= '\U{200a}' || c == '\U{2028}' || c == '\U{2029}' || c == '\U{202f}'
    || c == '\U{205f}' || c == '\U{3000}'
  }

  /** The characters at which splitlines ends a line. */
  predicate IsBreak(c: char) {
    '\n' <= c <= '\r' || '\U{1c}' <= c <= '\U{1e}' || c == '\U{85}' || c == '\U{2028}' || c == '\U{2029}'
  }

  /** The ASCII characters that are space, and those of them that end a line. */
  lemma AsciiTable(c: char)
    requires c < '\U{80}'
    ensures IsSpace(c) <==>
      c in {'\t', '\n', '\U{0b}', '\U{0c}', '\r', '\U{1c}', '\U{1d}', '\U{1e}', '\U{1f}', ' '}
    ensures IsBreak(c) <==> c in {'\n', '\U{0b}', '\U{0c}', '\r', '\U{1c}', '\U{1d}', '\U{1e}'}
  {
  }

  predicate NoBreak(t: string) {
    forall i :: 0 <= i < |t| ==> !IsBreak(t[i])
  }

  function FirstBreak(t: string): (k: nat)
    ensures k <= |t| && NoBreak(t[..k]) && (k < |t| ==> IsBreak(t[k]))
  {
    if t == [] || IsBreak(t[0]) then 0 else
      var k := 1 + FirstBreak(t[1..]);
      assert t[..k] == [t[0]] + t[1..][..k - 1];
      k
  }

  function FirstOf(t: string, c: char): (k: nat)
    ensures k <= |t| && c !in t[..k] && (k < |t| ==> t[k] == c)
  {
    if t == [] || t[0] == c then 0 else
      var k := 1 + FirstOf(t[1..], c);
      assert t[..k] == [t[0]] + t[1..][..k - 1];
      k
  }

  lemma {:induction false} FirstOfIs(t: string, c: char, k: nat)
    requires k <= |t| && c !in t[..k] && (k < |t| ==> t[k] == c)
    ensures FirstOf(t, c) == k
  {
    if k > 0 {
      assert t[0] == t[..k][0] && t[1..][..k - 1] == t[..k][1..];
      FirstOfIs(t[1..], c, k - 1);
    }
  }

  lemma {:induction false} FirstBreakIs(t: string, k: nat)
    requires k <= |t| && NoBreak(t[..k]) && (k < |t| ==> IsBreak(t[k]))
    ensures FirstBreak(t) == k
  {
    if k > 0 {
      assert t[0] == t[..k][0] && t[1..][..k - 1] == t[..k][1..];
      FirstBreakIs(t[1..], k - 1);
    }
  }

  /** str.splitlines: a carriage return and a line feed together are one break, and a break at the
      very end starts no further line. */
  function Lines(t: string): (ls: seq<string>)
    ensures forall i :: 0 <= i < |ls| ==> NoBreak(ls[i])
    decreases |t|
  {
    if t == [] then [] else
      var k := FirstBreak(t);
      if k == |t| then
        assert t[..k] == t;
        [t]
      else
        var next := if t[k] == '\r' && k + 1 < |t| && t[k + 1] == '\n' then k + 2 else k + 1;
        [t[..k]] + Lines(t[next..])
  }

  /** A line ends at the first break of whatever kind; a carriage return takes a line feed with it. */
  lemma LineEnds(a: string, newline: string, rest: string)
    requires NoBreak(a)
    requires newline == "\r\n" || (|newline| == 1 && IsBreak(newline[0]) && (newline == "\r" ==> rest == [] || rest[0] != '\n'))
    ensures Lines(a + newline + rest) == [a] + Lines(rest)
  {
    var t, k := a + newline + rest, |a|;
    assert t[..k] == a && t[k] == newline[0] && t[k + |newline|..] == rest;
    assert newline == "\r\n" ==> t[k + 1] == '\n';
    assert |newline| == 1 && rest != [] ==> t[k + 1] == rest[0];
    FirstBreakIs(t, k);
  }

  /** A last line needs no break. */
  lemma LastLine(a: string)
    requires NoBreak(a) && a != []
    ensures Lines(a) == [a]
  {
    assert a[..|a|] == a;
    FirstBreakIs(a, |a|);
  }

  function Unlines(ls: seq<string>): string {
    if ls == [] then "" else ls[0] + "\n" + Unlines(ls[1..])
  }

  lemma {:induction false} UnlinesAppend(a: seq<string>, b: seq<string>)
    ensures Unlines(a + b) == Unlines(a) + Unlines(b)
  {
    if a == [] {
      assert a + b == b;
    } else {
      assert (a + b)[1..] == a[1..] + b;
      UnlinesAppend(a[1..], b);
    }
  }

  lemma LineThenRest(a: string, rest: string)
    requires NoBreak(a)
    ensures Lines(a + "\n" + rest) == [a] + Lines(rest)
  {
    var t, k := a + "\n" + rest, |a|;
    assert t[..k] == a && t[k] == '\n' && t[k + 1..] == rest;
    FirstBreakIs(t, k);
  }

  lemma {:induction false} LinesOfUnlines(ls: seq<string>)
    requires forall i :: 0 <= i < |ls| ==> NoBreak(ls[i])
    ensures Lines(Unlines(ls)) == ls
  {
    if ls != [] {
      LineThenRest(ls[0], Unlines(ls[1..]));
      LinesOfUnlines(ls[1..]);
    }
  }

  // ---- strip

  /** What strip removes: space, or the characters of comment markers. */
  datatype CharClass = Spaces | Markers

  predicate In(p: CharClass, c: char) {
    match p
    case Spaces => IsSpace(c)
    case Markers => c == '*' || c == '#' || c == '/'
  }

  predicate AllIn(p: CharClass, t: string) {
    forall i :: 0 <= i < |t| ==> In(p, t[i])
  }

  function LTrim(p: CharClass, t: string): string {
    if t != [] && In(p, t[0]) then LTrim(p, t[1..]) else t
  }

  function RTrim(p: CharClass, t: string): string {
    if t != [] && In(p, t[|t| - 1]) then RTrim(p, t[..|t| - 1]) else t
  }

  function Trim(p: CharClass, t: string): string { RTrim(p, LTrim(p, t)) }

  function Strip(t: string): string { Trim(Spaces, t) }

  // Nothing at either end that the class would remove.
  predicate TrimmedOf(p: CharClass, t: string) {
    t == [] || (!In(p, t[0]) && !In(p, t[|t| - 1]))
  }

  predicate Trimmed(t: string) { TrimmedOf(Spaces, t) }

  predicate Within(a: string, t: string) {
    forall c :: c in a ==> c in t
  }

  lemma {:induction false} LTrimGives(p: CharClass, t: string) returns (cut: string)
    ensures t == cut + LTrim(p, t) && AllIn(p, cut) && (LTrim(p, t) == [] || !In(p, LTrim(p, t)[0]))
  {
    if t != [] && In(p, t[0]) {
      cut := LTrimGives(p, t[1..]);
      cut := [t[0]] + cut;
    } else {
      cut := [];
    }
  }

  lemma {:induction false} RTrimGives(p: CharClass, t: string) returns (cut: string)
    ensures t == RTrim(p, t) + cut && AllIn(p, cut) && (RTrim(p, t) == [] || !In(p, RTrim(p, t)[|RTrim(p, t)| - 1]))
  {
    if t != [] && In(p, t[|t| - 1]) {
      cut := RTrimGives(p, t[..|t| - 1]);
      cut := cut + [t[|t| - 1]];
    } else {
      cut := [];
    }
  }

  /** Strip takes from both ends only characters of the class, and all it can. */
  lemma TrimGives(p: CharClass, t: string) returns (front: string, back: string)
    ensures t == front + Trim(p, t) + back && AllIn(p, front) && AllIn(p, back)
    ensures TrimmedOf(p, Trim(p, t))
  {
    front := LTrimGives(p, t);
    back := RTrimGives(p, LTrim(p, t));
  }

  lemma StripGives(t: string)
    ensures Trimmed(Strip(t)) && Within(Strip(t), t)
  {
    var front, back := TrimGives(Spaces, t);
  }

  lemma {:induction false} LTrimOf(p: CharClass, front: string, core: string)
    requires AllIn(p, front) && core != [] && !In(p, core[0])
    ensures LTrim(p, front + core) == core
  {
    if front == [] {
      assert front + core == core;
    } else {
      assert (front + core)[1..] == front[1..] + core;
      LTrimOf(p, front[1..], core);
    }
  }

  lemma {:induction false} RTrimOf(p: CharClass, core: string, back: string)
    requires AllIn(p, back) && (core == [] || !In(p, core[|core| - 1]))
    ensures RTrim(p, core + back) == core
  {
    if back == [] {
      assert core + back == core;
    } else {
      assert (core + back)[..|core + back| - 1] == core + back[..|back| - 1];
      RTrimOf(p, core, back[..|back| - 1]);
    }
  }

  /** Conversely, a text that ends at both sides outside the class is what strip finds inside. */
  lemma TrimOf(p: CharClass, front: string, core: string, back: string)
    requires AllIn(p, front) && AllIn(p, back) && core != [] && TrimmedOf(p, core)
    ensures Trim(p, front + core + back) == core
  {
    assert front + core + back == front + (core + back);
    LTrimOf(p, front, core + back);
    RTrimOf(p, core, back);
  }

  lemma StripTrimmed(t: string)
    requires Trimmed(t)
    ensures Strip(t) == t && Strip(t + " ") == t && Strip(" " + t) == t
  {
    if t != [] {
      TrimOf(Spaces, "", t, "");
      TrimOf(Spaces, "", t, " ");
      TrimOf(Spaces, " ", t, "");
      assert "" + t + "" == t && "" + t + " " == t + " " && " " + t + "" == " " + t;
    } else {
      assert t + " " == " " + t == " " && " "[1..] == "";
      assert LTrim(Spaces, " ") == LTrim(Spaces, "");
    }
  }
}
