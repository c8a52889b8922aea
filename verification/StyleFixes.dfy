/** Each line fix of the style fixer leaves a line that complies, keeps the shape of the line, and
    never loses a guard that switches the checks off. */
module StyleFixes {
  import opened TextLines
  import opened ConfigText
  import opened StyleLines

  predicate WellFormed(l: string) { Shaped(l) && '\r' !in l }

  lemma Glue(piece: string, rest: string)
    requires '\n' !in piece && '\r' !in piece && WellFormed(rest)
    ensures WellFormed(piece + rest) && (Ended(piece + rest) <==> Ended(rest))
  {
    assert (piece + rest)[..|piece + rest| - 1] == piece + rest[..|rest| - 1];
  }

  lemma TailClean(l: string, n: nat)
    requires WellFormed(l) && 0 < n < |l|
    ensures WellFormed(l[n..]) && (Ended(l[n..]) <==> Ended(l)) && l[0] != '\n'
  {
    assert l[n..][..|l| - n - 1] == l[..|l| - 1][n..];
    assert l[0] == l[..|l| - 1][0];
  }

  lemma {:induction false} ReplaceShaped(l: string, was: string, repl: string)
    requires was != [] && repl != [] && '\n' !in was && '\n' !in repl && '\r' !in repl && WellFormed(l)
    ensures WellFormed(Replace(l, was, repl)) && (Ended(l) ==> Ended(Replace(l, was, repl)))
    decreases |l|
  {
    var found := StartsWith(l, was);
    var n := if found then |was| else 1;
    var piece := if found then repl else [l[0]];
    if n < |l| {
      TailClean(l, n);
      ReplaceShaped(l[n..], was, repl);
      Glue(piece, Replace(l[n..], was, repl));
    } else {
      assert l[n..] == [] && Replace(l, was, repl) == piece;
      assert found ==> l == was;
    }
  }

  lemma RTrimClean(l: string)
    requires WellFormed(l)
    ensures '\n' !in RTrim(Spaces, l) && '\r' !in RTrim(Spaces, l)
  {
    WhitespaceShaped(l);
    assert WhitespaceFix(l)[..|RTrim(Spaces, l)|] == RTrim(Spaces, l);
  }

  // ---- licence

  // Putting another text in the place of the one that strip finds.
  lemma SwapCore(p: CharClass, front: string, core: string, back: string, x: string)
    requires TrimmedOf(p, front + core + back) && core != [] && x != [] && TrimmedOf(p, x)
    ensures TrimmedOf(p, front + x + back)
  {
    var a, b := front + core + back, front + x + back;
    assert b[0] == if front == [] then x[0] else a[0];
    assert b[|b| - 1] == if back == [] then x[|x| - 1] else a[|a| - 1];
  }

  predicate Outer(t: string) {
    forall i :: 0 <= i < |t| ==> IsSpace(t[i]) || In(Markers, t[i])
  }

  lemma Nest(a: string, b: string, c: string, d: string, e: string)
    ensures a + (b + c + d) + e == (a + b) + c + (d + e)
  {
  }

  predicate EndsOk(x: string) {
    x != [] && TrimmedOf(Spaces, x) && TrimmedOf(Markers, x)
  }

  // The same for the two outer layers of Core, from the inside out.

  lemma SwapInner(m: string, x: string) returns (f: string, b: string)
    requires Strip(m) != [] && EndsOk(x) && TrimmedOf(Markers, m)
    ensures m == f + Strip(m) + b && Outer(f) && Outer(b)
    ensures Strip(f + x + b) == x && TrimmedOf(Markers, f + x + b)
  {
    f, b := TrimGives(Spaces, m);
    SwapCore(Markers, f, Strip(m), b, x);
    TrimOf(Spaces, f, x, b);
  }

  lemma SwapMiddle(s: string, x: string) returns (f: string, b: string)
    requires Strip(Trim(Markers, s)) != [] && EndsOk(x) && TrimmedOf(Spaces, s)
    ensures s == f + Strip(Trim(Markers, s)) + b && Outer(f) && Outer(b)
    ensures Strip(Trim(Markers, f + x + b)) == x && TrimmedOf(Spaces, f + x + b)
  {
    var m := Trim(Markers, s);
    var f2, b2 := TrimGives(Markers, s);
    var f3, b3 := SwapInner(m, x);
    f, b := f2 + f3, b3 + b2;
    Nest(f2, f3, Strip(m), b3, b2);
    Nest(f2, f3, x, b3, b2);
    TrimOf(Markers, f2, f3 + x + b3, b2);
    SwapCore(Spaces, f, Strip(m), b, x);
  }

  lemma CoreSwap(l: string, x: string) returns (front: string, back: string)
    requires Core(l) != [] && EndsOk(x)
    ensures l == front + Core(l) + back && Outer(front) && Outer(back)
    ensures Core(front + x + back) == x
  {
    var s := Strip(l);
    var f1, b1 := TrimGives(Spaces, l);
    var f, b := SwapMiddle(s, x);
    front, back := f1 + f, b + b1;
    Nest(f1, f, Core(l), b, b1);
    Nest(f1, f, x, b, b1);
    TrimOf(Spaces, f1, f + x + b, b1);
  }

  /** What the fix relies on in the licence texts: the first line starts with a letter that no comment
      marker has, every line is longer than the identifier and than any guard, and the identifier has
      no space or marker at its ends. */
  predicate TextsOk(x: LicenseTexts) {
    && x.gpl != [] && "T" <= x.gpl[0]
    && (forall i :: 0 <= i < |x.gpl| ==> |x.gpl[i]| >= 42)
    && |x.spdx| < 42 && EndsOk(x.spdx) && '\n' !in x.spdx && '\r' !in x.spdx
  }

  lemma ShortIsNotGpl(x: LicenseTexts, t: string)
    requires TextsOk(x) && |t| < 42
    ensures t !in x.gpl
  {
  }

  lemma CoreClean(l: string)
    requires WellFormed(l)
    ensures '\n' !in Core(l)
  {
    WhitespaceShaped(l);
    var f1, b1 := TrimGives(Spaces, l);
    var f2, b2 := TrimGives(Markers, Strip(l));
    var f3, b3 := TrimGives(Spaces, Trim(Markers, Strip(l)));
    assert Within(Core(l), Strip(l));
    StripClean(l);
  }

  lemma StripClean(l: string)
    requires WellFormed(l)
    ensures '\n' !in Strip(l)
  {
    var f, b := TrimGives(Spaces, l);
    var s := Strip(l);
    forall i | 0 <= i < |s| ensures s[i] != '\n' {
      assert l[|f| + i] == s[i];
      assert i == |s| - 1 ==> !IsSpace(s[i]);
      assert |f| + i < |l| - 1 ==> l[..|l| - 1][|f| + i] != '\n';
    }
  }

  /** The first licence line keeps what surrounds its text, and the text becomes the identifier. */
  lemma LicenseFixed(l: string, x: LicenseTexts) returns (front: string, back: string)
    requires WellFormed(l) && TextsOk(x) && Core(l) == x.gpl[0]
    ensures l == front + x.gpl[0] + back && LicenseFix(x, l) == front + x.spdx + back
    ensures var f := LicenseFix(x, l);
      Core(f) == x.spdx && WellFormed(f) && (Ended(l) ==> Ended(f))
  {
    var gpl := x.gpl[0];
    CoreClean(l);
    front, back := CoreSwap(l, x.spdx);
    assert 'T' !in front && 'T' !in back;
    ReplaceFirst(front, gpl, back, x.spdx);
    ReplaceNone(back, gpl, x.spdx);
    ReplaceShaped(l, gpl, x.spdx);
  }

  lemma LicenseRepaired(u: Alphabet, x: LicenseTexts, l: string)
    requires WellFormed(l) && TextsOk(x)
    ensures Repaired(u, License(x), l, LicenseFix(x, l))
  {
    if Core(l) == x.gpl[0] {
      var front, back := LicenseFixed(l, x);
      ShortIsNotGpl(x, x.spdx);
    }
  }

  // ---- doxygen

  lemma {:induction false} LeadSpacesOf(front: string, rest: string)
    requires AllIn(Spaces, front) && (rest == [] || !IsSpace(rest[0]))
    ensures LeadSpaces(front + rest) == |front|
  {
    if front == [] {
      assert front + rest == rest;
    } else {
      assert (front + rest)[1..] == front[1..] + rest;
      LeadSpacesOf(front[1..], rest);
    }
  }

  lemma {:induction false} LeadSpacesGives(t: string)
    ensures AllIn(Spaces, t[..LeadSpaces(t)]) && (LeadSpaces(t) < |t| ==> !IsSpace(t[LeadSpaces(t)]))
  {
    if t != [] && IsSpace(t[0]) {
      LeadSpacesGives(t[1..]);
      assert t[..LeadSpaces(t)] == [t[0]] + t[1..][..LeadSpaces(t[1..])];
    }
  }

  // A comment line up to its tag: space, a marker, space.
  predicate CommentFront(a: string, m: string, b: string) {
    AllIn(Spaces, a) && AllIn(Spaces, b) && (m == "*" || m == "/**" || m == "///")
  }

  lemma CutUp(t: string, i: nat, j: nat, k: nat, e: nat)
    requires i <= j <= k <= e <= |t|
    ensures t == t[..i] + t[i..j] + t[j..k] + t[k..e] + t[e..]
  {
    assert t[..j] == t[..i] + t[i..j];
    assert t[..k] == t[..j] + t[j..k];
    assert t[..e] == t[..k] + t[k..e];
  }

  lemma MarkerGives(t: string)
    ensures var n := MarkerLength(t); n > 0 ==> t[..n] == "*" || t[..n] == "/**" || t[..n] == "///"
  {
  }

  lemma SpacesAt(t: string, j: nat)
    requires j <= |t|
    ensures AllIn(Spaces, t[j..j + LeadSpaces(t[j..])])
  {
    LeadSpacesGives(t[j..]);
    assert t[j..j + LeadSpaces(t[j..])] == t[j..][..LeadSpaces(t[j..])];
  }

  lemma FrontParts(t: string, i: nat, n: nat)
    requires i == LeadSpaces(t) && n == MarkerLength(t[i..]) && n > 0
    ensures CommentFront(t[..i], t[i..i + n], t[i + n..i + n + LeadSpaces(t[i + n..])])
  {
    LeadSpacesGives(t);
    SpacesAt(t, i + n);
    MarkerGives(t[i..]);
    assert t[i..i + n] == t[i..][..n];
  }

  lemma TagAtGives(u: Alphabet, t: string, k: nat)
    requires k <= |t| && TagAt(u, t, k) != []
    ensures var tag := TagAt(u, t, k);
      && k + |tag| <= |t| && tag == t[k..k + |tag|] && tag[0] == '\\' && |tag| > 3
      && |tag| == 1 + LeadWord(u, t[k + 1..]) && (k + |tag| == |t| || IsSpace(t[k + |tag|]))
  {
  }

  lemma TagGives(u: Alphabet, l: string, tag: string) returns (i: nat, n: nat, k: nat)
    requires tag == TagOf(u, l) && tag != []
    ensures var t := RTrim(Spaces, l);
      && i == LeadSpaces(t) && n == MarkerLength(t[i..]) && n > 0 && k == i + n + LeadSpaces(t[i + n..])
      && k + |tag| <= |t| && tag == t[k..k + |tag|] && tag[0] == '\\' && |tag| > 3
      && |tag| == 1 + LeadWord(u, t[k + 1..]) && (k + |tag| == |t| || IsSpace(t[k + |tag|]))
  {
    var t := RTrim(Spaces, l);
    i := LeadSpaces(t);
    n := MarkerLength(t[i..]);
    k := TagStart(t);
    TagAtGives(u, t, k);
  }

  // How a line with a tag is made up.
  lemma TagSplit(u: Alphabet, l: string, tag: string) returns (a: string, m: string, b: string, rest: string)
    requires tag == TagOf(u, l) && tag != []
    ensures CommentFront(a, m, b) && l == a + m + b + tag + rest
    ensures tag[0] == '\\' && |tag| > 3 && Within(tag, RTrim(Spaces, l))
    ensures IsWordText(u, tag[1..]) && (rest == [] || IsSpace(rest[0]))
  {
    var cut := RTrimGives(Spaces, l);
    var i, n, k := TagGives(u, l, tag);
    a, m, b, rest := TagSplitOf(u, l, RTrim(Spaces, l), cut, i, n, k, tag);
  }

  lemma TagSplitOf(u: Alphabet, l: string, t: string, cut: string, i: nat, n: nat, k: nat, tag: string)
    returns (a: string, m: string, b: string, rest: string)
    requires l == t + cut && AllIn(Spaces, cut) && i == LeadSpaces(t) && n == MarkerLength(t[i..]) && n > 0
    requires k == i + n + LeadSpaces(t[i + n..]) && k + |tag| <= |t| && tag == t[k..k + |tag|] && tag != []
    requires |tag| == 1 + LeadWord(u, t[k + 1..]) && (k + |tag| == |t| || IsSpace(t[k + |tag|]))
    ensures CommentFront(a, m, b) && l == a + m + b + tag + rest && Within(tag, t)
    ensures IsWordText(u, tag[1..]) && (rest == [] || IsSpace(rest[0]))
  {
    a, m, b, rest := TagSplitAt(l, t, cut, i, n, k, tag);
    TagWord(u, t, k, tag);
    RestStarts(t, cut, k + |tag|);
  }

  lemma TagWord(u: Alphabet, t: string, k: nat, tag: string)
    requires k + |tag| <= |t| && tag == t[k..k + |tag|] && tag != [] && |tag| == 1 + LeadWord(u, t[k + 1..])
    ensures IsWordText(u, tag[1..])
  {
    LeadWordGives(u, t[k + 1..]);
    assert tag[1..] == t[k + 1..][..|tag| - 1];
  }

  lemma RestStarts(t: string, cut: string, e: nat)
    requires e <= |t| && (e == |t| || IsSpace(t[e])) && AllIn(Spaces, cut)
    ensures var rest := t[e..] + cut; rest == [] || IsSpace(rest[0])
  {
  }

  predicate IsWordText(u: Alphabet, w: string) {
    forall i :: 0 <= i < |w| ==> IsWord(u, w[i])
  }

  lemma {:induction false} LeadWordGives(u: Alphabet, t: string)
    ensures IsWordText(u, t[..LeadWord(u, t)])
  {
    if t != [] && IsWord(u, t[0]) {
      LeadWordGives(u, t[1..]);
      assert t[..LeadWord(u, t)] == [t[0]] + t[1..][..LeadWord(u, t[1..])];
    }
  }

  lemma {:induction false} LeadWordOf(u: Alphabet, w: string, rest: string)
    requires IsWordText(u, w) && (rest == [] || !IsWord(u, rest[0]))
    ensures LeadWord(u, w + rest) == |w|
  {
    if w == [] {
      assert w + rest == rest;
    } else {
      assert (w + rest)[1..] == w[1..] + rest;
      LeadWordOf(u, w[1..], rest);
    }
  }

  lemma CutLine(l: string, t: string, cut: string, i: nat, j: nat, k: nat, e: nat)
    requires i <= j <= k <= e <= |t| && l == t + cut
    ensures l == t[..i] + t[i..j] + t[j..k] + t[k..e] + (t[e..] + cut)
  {
    CutUp(t, i, j, k, e);
  }

  lemma TagSplitAt(l: string, t: string, cut: string, i: nat, n: nat, k: nat, tag: string)
    returns (a: string, m: string, b: string, rest: string)
    requires l == t + cut && i == LeadSpaces(t) && n == MarkerLength(t[i..]) && n > 0
    requires k == i + n + LeadSpaces(t[i + n..]) && k + |tag| <= |t| && tag == t[k..k + |tag|]
    ensures CommentFront(a, m, b) && l == a + m + b + tag + rest && Within(tag, t)
    ensures rest == t[k + |tag|..] + cut
  {
    FrontParts(t, i, n);
    CutLine(l, t, cut, i, i + n, k, k + |tag|);
    a, m, b, rest := t[..i], t[i..i + n], t[i + n..k], t[k + |tag|..] + cut;
  }

  lemma {:induction false} RTrimKeeps(a: string, c: char, b: string) returns (x: string)
    requires !IsSpace(c)
    ensures RTrim(Spaces, a + [c] + b) == a + [c] + x && x <= b
    decreases |b|
  {
    var t := a + [c] + b;
    if b == [] {
      x := [];
      assert t == a + [c];
    } else if IsSpace(b[|b| - 1]) {
      assert t[..|t| - 1] == a + [c] + b[..|b| - 1];
      x := RTrimKeeps(a, c, b[..|b| - 1]);
    } else {
      x := b;
    }
  }

  lemma MarkerOf(m: string, rest: string)
    requires m == "*" || m == "/**" || m == "///"
    ensures MarkerLength(m + rest) == |m|
  {
    var t := m + rest;
    assert t[..|m|] == m && t[0] == m[0];
    assert t[..1] == [m[0]];
  }

  lemma TagStartFrom(t: string, i: nat, n: nat, k: nat)
    requires i + n <= |t| && LeadSpaces(t) == i && MarkerLength(t[i..]) == n && i + n + LeadSpaces(t[i + n..]) == k
    ensures TagStart(t) == k
  {
  }

  lemma Drop(a: string, m: string, b: string, y: string)
    ensures var t := a + m + b + y;
      t == a + (m + (b + y)) && t[|a|..] == m + (b + y) && t[|a| + |m|..] == b + y
  {
    var t := a + m + b + y;
    assert t == a + (m + (b + y));
    assert t == (a + m) + (b + y);
  }

  // Where the tag of a comment line would start.
  lemma TagStartOf(a: string, m: string, b: string, y: string)
    requires CommentFront(a, m, b) && y != [] && !IsSpace(y[0])
    ensures TagStart(a + m + b + y) == |a + m + b|
  {
    Drop(a, m, b, y);
    LeadSpacesOf(a, m + (b + y));
    MarkerOf(m, b + y);
    LeadSpacesOf(b, y);
    TagStartFrom(a + m + b + y, |a|, |m|, |a| + |m| + |b|);
  }

  lemma NoTagAt(u: Alphabet, a: string, m: string, b: string, c: char, rest: string)
    requires CommentFront(a, m, b) && !IsSpace(c) && c != '\\'
    ensures TagOf(u, a + m + b + [c] + rest) == []
  {
    var l := a + m + b + [c] + rest;
    var x := RTrimKeeps(a + m + b, c, rest);
    assert RTrim(Spaces, l) == a + m + b + ([c] + x);
    TagStartOf(a, m, b, [c] + x);
  }

  lemma TagReplaced(u: Alphabet, a: string, m: string, b: string, tag: string, rest: string)
    requires CommentFront(a, m, b) && tag != [] && tag[0] == '\\'
    ensures TagOf(u, Replace(a + m + b + tag + rest, tag, "@" + tag[1..])) == []
  {
    var newTag := "@" + tag[1..];
    FrontText(a, m, b);
    ReplaceFirst(a + m + b, tag, rest, newTag);
    var after := tag[1..] + Replace(rest, tag, newTag);
    assert a + m + b + newTag + Replace(rest, tag, newTag) == a + m + b + ['@'] + after;
    NoTagAt(u, a, m, b, '@', after);
  }

  lemma FrontText(a: string, m: string, b: string)
    requires CommentFront(a, m, b)
    ensures '\\' !in a + m + b
  {
    assert '\\' !in a && '\\' !in m && '\\' !in b;
  }

  /** Up to its tag the line is kept, the tag's backslash becomes an at sign, and afterwards no tag is
      found. */
  lemma DoxygenFixed(u: Alphabet, l: string) returns (front: string, rest: string)
    requires WellFormed(l) && TagOf(u, l) != []
    ensures var tag := TagOf(u, l);
      && l == front + tag + rest
      && DoxygenFix(u, l) == front + ("@" + tag[1..]) + Replace(rest, tag, "@" + tag[1..])
    ensures var f := DoxygenFix(u, l); TagOf(u, f) == [] && WellFormed(f) && (Ended(l) ==> Ended(f))
  {
    var tag := TagOf(u, l);
    var a, m, b, after := TagSplit(u, l, tag);
    front, rest := a + m + b, after;
    TagReplaced(u, a, m, b, tag, rest);
    FrontText(a, m, b);
    ReplaceFirst(front, tag, rest, "@" + tag[1..]);
    RTrimClean(l);
    ReplaceShaped(l, tag, "@" + tag[1..]);
  }

  // ---- guards

  lemma NoMarker(t: string)
    requires t != [] && (t[0] == '#' || (|t| >= 3 && t[0] == '/' && t[1] == '/' && t[2] == ' '))
    ensures MarkerLength(t) == 0
  {
    assert t[..1][0] == t[0];
    assert |t| >= 3 ==> t[..3][1] == t[1] && t[..3][2] == t[2];
  }

  lemma OffText(l: string)
    requires IsOff(l)
    ensures var g := Strip(l); 0 < |g| < 42 && 'y' !in g && '\t' !in g && MarkerLength(g) == 0
  {
    NoMarker(Strip(l));
  }

  lemma {:induction false} ContainedChar(t: string, p: string, c: char)
    ensures Contains(t, p) && c in p ==> c in t
  {
    assert StartsWith(t, p) && c in p ==> c in t[..|p|];
    if t != [] {
      ContainedChar(t[1..], p, c);
    }
  }

  lemma OffHasNoTag(u: Alphabet, l: string)
    requires IsOff(l)
    ensures TagOf(u, l) == []
  {
    OffText(l);
    var g := Strip(l);
    var front, back := TrimGives(Spaces, l);
    RTrimOf(Spaces, front + g, back);
    LeadSpacesOf(front, g);
    assert (front + g)[|front|..] == g;
  }

  lemma CoreIsShort(l: string)
    ensures |Core(l)| <= |Strip(l)|
  {
    var s := Strip(l);
    var a, b := TrimGives(Markers, s);
    var c, d := TrimGives(Spaces, Trim(Markers, s));
  }

  lemma OffIsNotGpl(x: LicenseTexts, l: string)
    requires IsOff(l) && TextsOk(x)
    ensures LicenseComplies(x, l)
  {
    OffText(l);
    CoreIsShort(l);
    ShortIsNotGpl(x, Core(l));
  }

  lemma OffIsNotEmacs(l: string)
    requires IsOff(l)
    ensures !EmacsStyle(l)
  {
    OffText(l);
    ContainedChar(Strip(l), "c-file-style:", 'y');
    ContainedChar(Strip(l), "py-indent-offset:", 'y');
    assert "c-file-style:"[9] == 'y' && "py-indent-offset:"[1] == 'y';
  }

  lemma OffExpanded(l: string)
    requires IsOff(l)
    ensures IsOff(Expand(l, 0))
  {
    OffText(l);
    ExpandKeepsCore(l);
  }

  predicate CheckOk(c: Check) { c.License? ==> TextsOk(c.texts) }

  /** The line that switches the checks off complies with every check but the one for tabs, whose
      fix leaves it such a line. */
  lemma OffStays(u: Alphabet, c: Check, l: string)
    requires IsOff(l) && c != Whitespace && CheckOk(c)
    ensures c != Tabs ==> Complies(u, c, l)
    ensures c == Tabs ==> IsOff(Replacement(u, c, l))
  {
    match c
    case Doxygen => OffHasNoTag(u, l);
    case License(x) => OffIsNotGpl(x, l);
    case Emacs => OffIsNotEmacs(l);
    case Tabs => OffExpanded(l);
    case Whitespace =>
  }

  // ---- all checks

  // What a replaced line is: gone, or a line of the same shape that complies.
  predicate Repaired(u: Alphabet, c: Check, l: string, f: string) {
    f == [] || (WellFormed(f) && (Ended(l) ==> Ended(f)) && Complies(u, c, f))
  }

  /** Replacing a line that does not comply repairs it, whatever the check. */
  lemma LineRepaired(u: Alphabet, c: Check, l: string)
    requires WellFormed(l) && !Complies(u, c, l) && CheckOk(c)
    ensures Repaired(u, c, l, Replacement(u, c, l))
  {
    match c
    case Doxygen => var front, rest := DoxygenFixed(u, l);
    case License(x) => LicenseRepaired(u, x, l);
    case Emacs =>
    case Whitespace =>
      var core, cut := WhitespaceFixed(l);
      WhitespaceShaped(l);
    case Tabs =>
      ExpandNoTab(l, 0);
      ExpandShaped(l, 0);
  }

  // ---- the repository's licence texts

  predicate AllLong(ts: seq<string>) { forall i :: 0 <= i < |ts| ==> |ts[i]| >= 42 }

  lemma OpeningLong()
    ensures AllLong(GplOpening()) && "T" <= GplOpening()[0]
  {
    assert "This program is free software;"[0] == 'T';
    assert |GplOpening()[0]| == 30 + 38;
  }

  lemma ClosingLong()
    ensures AllLong(GplClosing())
  {
  }

  lemma SpdxOk(t: string)
    requires t == "SPDX-License-Identifier: GPL-2.0-only"
    ensures |t| == 37 && EndsOk(t) && '\n' !in t && '\r' !in t
  {
  }

  lemma TextsOkFrom(x: LicenseTexts, a: seq<string>, b: seq<string>)
    requires x == LicenseTexts(a + b, "SPDX-License-Identifier: GPL-2.0-only")
    requires AllLong(a) && AllLong(b) && a != [] && "T" <= a[0]
    ensures TextsOk(x)
  {
    SpdxOk(x.spdx);
  }

  /** The licence texts of the repository are such that the fix works. */
  lemma LicensesOk()
    ensures TextsOk(Licenses())
  {
    OpeningLong();
    ClosingLong();
    TextsOkFrom(Licenses(), GplOpening(), GplClosing());
  }
}
