/** What the line checks of the style fixer look for, said without the functions that look for it. */
module StyleMeans {
  import opened TextLines
  import opened ConfigText
  import opened StyleLines
  import opened StyleFixes

  // ---- doxygen tags

  /** A comment line that starts with a tag written with a backslash: space, a comment marker, space, a
      backslash and a word of at least three characters that ends the line or stands before space. */
  ghost predicate TagLine(u: Alphabet, l: string, a: string, m: string, b: string, w: string, rest: string) {
    && CommentFront(a, m, b) && |w| >= 3 && IsWordText(u, w) && (rest == [] || IsSpace(rest[0]))
    && l == a + m + b + ("\\" + w) + rest
  }

  lemma WordEnd(u: Alphabet, w: string)
    requires Sane(u) && IsWordText(u, w) && w != []
    ensures !IsSpace(w[|w| - 1]) && w == w[..|w| - 1] + [w[|w| - 1]]
  {
    assert IsWord(u, w[|w| - 1]);
  }

  lemma TrimmedTagLine(u: Alphabet, front: string, w: string, rest: string) returns (x: string)
    requires Sane(u) && IsWordText(u, w) && w != []
    ensures RTrim(Spaces, front + ("\\" + w) + rest) == front + ("\\" + w + x) && x <= rest
  {
    WordEnd(u, w);
    var c, start := w[|w| - 1], front + "\\" + w[..|w| - 1];
    x := RTrimKeeps(start, c, rest);
    assert front + ("\\" + w) + rest == start + [c] + rest;
    assert start + [c] + x == front + ("\\" + w + x);
  }

  lemma TagRead(u: Alphabet, t: string, a: string, m: string, b: string, w: string, x: string)
    requires Sane(u) && CommentFront(a, m, b) && |w| >= 3 && IsWordText(u, w) && (x == [] || IsSpace(x[0]))
    requires t == a + m + b + ("\\" + w + x)
    ensures TagStart(t) == |a + m + b| && MarkerLength(t[LeadSpaces(t)..]) > 0
    ensures t[|a + m + b|..] == "\\" + w + x && LeadWord(u, w + x) == |w|
  {
    TagStartOf(a, m, b, "\\" + w + x);
    Drop(a, m, b, "\\" + w + x);
    LeadSpacesOf(a, m + (b + ("\\" + w + x)));
    MarkerOf(m, b + ("\\" + w + x));
    SpaceIsNoWord(u, x);
    LeadWordOf(u, w, x);
  }

  lemma SpaceIsNoWord(u: Alphabet, x: string)
    requires Sane(u) && (x == [] || IsSpace(x[0]))
    ensures x == [] || !IsWord(u, x[0])
  {
  }

  lemma TagParts(t: string, k: nat, w: string, x: string)
    requires k <= |t| && t[k..] == "\\" + w + x
    ensures |t| == k + 1 + |w| + |x| && t[k] == '\\' && t[k + 1..] == w + x && t[k..k + 1 + |w|] == "\\" + w
    ensures x != [] ==> t[k + 1 + |w|] == x[0]
  {
    var y := t[k..];
    assert t[k] == y[0] && t[k + 1..] == y[1..];
    assert t[k..k + 1 + |w|] == y[..1 + |w|];
    assert x != [] ==> t[k + 1 + |w|] == y[1 + |w|];
  }

  lemma TagAtIs(u: Alphabet, t: string, k: nat, n: nat)
    requires k < |t| && t[k] == '\\' && n == LeadWord(u, t[k + 1..]) && n >= 3
    requires k + 1 + n == |t| || IsSpace(t[k + 1 + n])
    ensures TagAt(u, t, k) == t[k..k + 1 + n]
  {
  }

  lemma TagOfIs(u: Alphabet, l: string, t: string)
    requires t == RTrim(Spaces, l) && MarkerLength(t[LeadSpaces(t)..]) > 0
    ensures TagOf(u, l) == TagAt(u, t, TagStart(t))
  {
  }

  lemma TagFound(u: Alphabet, l: string, a: string, m: string, b: string, w: string, rest: string)
    requires Sane(u) && TagLine(u, l, a, m, b, w, rest)
    ensures TagOf(u, l) == "\\" + w
  {
    var x := TrimmedTagLine(u, a + m + b, w, rest);
    assert x != [] ==> x[0] == rest[0];
    TagFoundIn(u, l, RTrim(Spaces, l), a, m, b, w, x);
  }

  lemma TagFoundIn(u: Alphabet, l: string, t: string, a: string, m: string, b: string, w: string, x: string)
    requires Sane(u) && CommentFront(a, m, b) && |w| >= 3 && IsWordText(u, w) && (x == [] || IsSpace(x[0]))
    requires t == RTrim(Spaces, l) && t == a + m + b + ("\\" + w + x)
    ensures TagOf(u, l) == "\\" + w
  {
    var k := |a + m + b|;
    TagRead(u, t, a, m, b, w, x);
    TagParts(t, k, w, x);
    TagAtIs(u, t, k, |w|);
    TagOfIs(u, l, t);
  }

  predicate IgnoredWord(w: string) { w == "dots" || w == "langle" || w == "quad" }

  lemma IgnoredTag(w: string)
    ensures Ignored("\\" + w) <==> IgnoredWord(w)
  {
    assert ("\\" + w)[1..] == w;
    assert "\\dots"[1..] == "dots" && "\\langle"[1..] == "langle" && "\\quad"[1..] == "quad";
    assert IgnoredWord(w) ==> "\\" + w == "\\dots" || "\\" + w == "\\langle" || "\\" + w == "\\quad";
  }

  /** A line does not comply exactly when it is a tag line whose word is not one of the three ignored. */
  lemma DoxygenMeans(u: Alphabet, l: string)
    requires Sane(u)
    ensures !DoxygenComplies(u, l) <==>
      exists a, m, b, w, rest :: TagLine(u, l, a, m, b, w, rest) && !IgnoredWord(w)
  {
    if !DoxygenComplies(u, l) {
      var a, m, b, rest := TagSplit(u, l, TagOf(u, l));
      var w := TagOf(u, l)[1..];
      assert TagOf(u, l) == "\\" + w;
      IgnoredTag(w);
      assert TagLine(u, l, a, m, b, w, rest);
    }
    if a, m, b, w, rest :| TagLine(u, l, a, m, b, w, rest) && !IgnoredWord(w) {
      TagFound(u, l, a, m, b, w, rest);
      IgnoredTag(w);
    }
  }

  /** The fix of a tag line turns its backslash into an at sign. */
  lemma DoxygenFixes(u: Alphabet, l: string, a: string, m: string, b: string, w: string, rest: string)
    requires Sane(u) && TagLine(u, l, a, m, b, w, rest)
    ensures DoxygenFix(u, l) == a + m + b + ("@" + w) + Replace(rest, "\\" + w, "@" + w)
  {
    TagFound(u, l, a, m, b, w, rest);
    FrontText(a, m, b);
    var tag := "\\" + w;
    assert tag[1..] == w;
    ReplaceFirst(a + m + b, tag, rest, "@" + w);
  }

  // ---- licence lines

  /** A text between comment markers: the space next to the text is only there if the marker is. */
  ghost predicate Framed(l: string, s1: string, m1: string, s2: string, text: string, s3: string, m2: string, s4: string) {
    && AllIn(Spaces, s1) && AllIn(Spaces, s2) && AllIn(Spaces, s3) && AllIn(Spaces, s4)
    && AllIn(Markers, m1) && AllIn(Markers, m2) && (m1 == [] ==> s2 == []) && (m2 == [] ==> s3 == [])
    && l == s1 + (m1 + (s2 + text + s3) + m2) + s4
  }

  lemma MiddleTrimmed(m1: string, core: string, m2: string, text: string, s2: string, s3: string)
    requires core == s2 + text + s3 && EndsOk(text) && AllIn(Spaces, s2) && AllIn(Spaces, s3)
    requires AllIn(Markers, m1) && AllIn(Markers, m2) && (m1 == [] ==> s2 == []) && (m2 == [] ==> s3 == [])
    ensures TrimmedOf(Spaces, m1 + core + m2) && TrimmedOf(Markers, core)
  {
    var t := m1 + core + m2;
    assert core[0] == if s2 == [] then text[0] else s2[0];
    assert core[|core| - 1] == if s3 == [] then text[|text| - 1] else s3[|s3| - 1];
    assert t[0] == if m1 == [] then core[0] else m1[0];
    assert t[|t| - 1] == if m2 == [] then core[|core| - 1] else m2[|m2| - 1];
  }

  /** Inside any comment markers and space, the text is what the licence check compares. */
  lemma CoreOf(l: string, s1: string, m1: string, s2: string, text: string, s3: string, m2: string, s4: string)
    requires Framed(l, s1, m1, s2, text, s3, m2, s4) && EndsOk(text)
    ensures Core(l) == text
  {
    var core := s2 + text + s3;
    MiddleTrimmed(m1, core, m2, text, s2, s3);
    TrimOf(Spaces, s1, m1 + core + m2, s4);
    TrimOf(Markers, m1, core, m2);
    TrimOf(Spaces, s2, text, s3);
  }

  /** A licence line is found whatever surrounds it; the first one becomes the identifier in the same
      surroundings, every other one is emptied. */
  lemma LicenseFinds(x: LicenseTexts, l: string, k: nat, s1: string, m1: string, s2: string, s3: string, m2: string, s4: string)
    requires TextsOk(x) && k < |x.gpl| && EndsOk(x.gpl[k]) && Framed(l, s1, m1, s2, x.gpl[k], s3, m2, s4)
    requires WellFormed(l)
    ensures !LicenseComplies(x, l)
    ensures x.gpl[k] != x.gpl[0] ==> LicenseFix(x, l) == ""
    ensures k == 0 ==> exists front, back :: l == front + x.gpl[0] + back && LicenseFix(x, l) == front + x.spdx + back
  {
    CoreOf(l, s1, m1, s2, x.gpl[k], s3, m2, s4);
    if k == 0 {
      var front, back := LicenseFixed(l, x);
    }
  }

  // ---- emacs lines

  ghost predicate HasPart(t: string, p: string) {
    exists a, b :: t == a + p + b
  }

  lemma PartFront(t: string, p: string)
    requires t != []
    ensures HasPart(t, p) <==> StartsWith(t, p) || HasPart(t[1..], p)
  {
    if StartsWith(t, p) {
      assert t == [] + p + t[|p|..];
    }
    if a, b :| t[1..] == a + p + b {
      assert t == ([t[0]] + a) + p + b;
    }
    if a, b :| t == a + p + b {
      if a == [] {
        assert t[..|p|] == p;
      } else {
        assert t[1..] == a[1..] + p + b;
      }
    }
  }

  lemma PartBack(t: string, p: string)
    requires t != []
    ensures HasPart(t, p) <==> (|p| <= |t| && t[|t| - |p|..] == p) || HasPart(t[..|t| - 1], p)
  {
    if |p| <= |t| && t[|t| - |p|..] == p {
      assert t == t[..|t| - |p|] + p + [];
    }
    if a, b :| t[..|t| - 1] == a + p + b {
      assert t == a + p + (b + [t[|t| - 1]]);
    }
    if a, b :| t == a + p + b {
      if b == [] {
        assert t[|t| - |p|..] == p;
      } else {
        assert t[..|t| - 1] == a + p + b[..|b| - 1];
      }
    }
  }

  lemma PartNone(p: string)
    ensures HasPart([], p) <==> p == []
  {
    var none: string := "";
    assert none == none + none + none;
  }

  lemma {:induction false} ContainsMeans(t: string, p: string)
    ensures Contains(t, p) <==> HasPart(t, p)
  {
    if t == [] {
      PartNone(p);
    } else {
      PartFront(t, p);
      ContainsMeans(t[1..], p);
    }
  }

  predicate NoSpace(p: string) {
    p != [] && forall i :: 0 <= i < |p| ==> !IsSpace(p[i])
  }

  lemma {:induction false} PartPastFront(front: string, t: string, p: string)
    requires NoSpace(p) && AllIn(Spaces, front)
    ensures HasPart(front + t, p) <==> HasPart(t, p)
  {
    if front == [] {
      assert front + t == t;
    } else {
      PartFront(front + t, p);
      assert (front + t)[1..] == front[1..] + t && (front + t)[0] == front[0];
      assert !StartsWith(front + t, p) by {
        assert p[0] != (front + t)[0];
      }
      PartPastFront(front[1..], t, p);
    }
  }

  lemma {:induction false} PartPastBack(t: string, back: string, p: string)
    requires NoSpace(p) && AllIn(Spaces, back)
    ensures HasPart(t + back, p) <==> HasPart(t, p)
  {
    var s := t + back;
    if back == [] {
      assert s == t;
    } else {
      PartBack(s, p);
      assert s[..|s| - 1] == t + back[..|back| - 1] && s[|s| - 1] == back[|back| - 1];
      assert |p| <= |s| ==> s[|s| - |p|..][|p| - 1] == s[|s| - 1] != p[|p| - 1];
      PartPastBack(t, back[..|back| - 1], p);
    }
  }

  // A pattern without space is in a line exactly when it is in the stripped line.
  lemma StripKeepsPart(l: string, p: string)
    requires NoSpace(p)
    ensures HasPart(Strip(l), p) <==> HasPart(l, p)
  {
    var front, back := TrimGives(Spaces, l);
    PartPastFront(front, Strip(l) + back, p);
    PartPastBack(Strip(l), back, p);
    assert l == front + (Strip(l) + back);
  }

  /** A line is an emacs line exactly when one of the two words stands somewhere in it; its fix is to
      empty it. */
  lemma EmacsMeans(u: Alphabet, l: string)
    ensures EmacsStyle(l) <==> HasPart(l, "c-file-style:") || HasPart(l, "py-indent-offset:")
    ensures Replacement(u, Emacs, l) == ""
  {
    ContainsMeans(Strip(l), "c-file-style:");
    ContainsMeans(Strip(l), "py-indent-offset:");
    StripKeepsPart(l, "c-file-style:");
    StripKeepsPart(l, "py-indent-offset:");
  }

  // ---- whitespace

  /** A line complies exactly when it ends in one line feed with no space before it. */
  lemma WhitespaceMeans(l: string)
    ensures WhitespaceComplies(l) <==>
      exists core: string :: l == core + "\n" && (core == [] || !IsSpace(core[|core| - 1]))
  {
    var core, cut := WhitespaceFixed(l);
    if c: string :| l == c + "\n" && (c == [] || !IsSpace(c[|c| - 1])) {
      RTrimOf(Spaces, c, "\n");
    }
  }

  // ---- guards

  predicate OffGuard(g: string) {
    g == "// clang-format off" || g == "# cmake-format: off" || g == "# fmt: off"
  }

  predicate OnGuard(g: string) {
    g == "// clang-format on" || g == "# cmake-format: on" || g == "# fmt: on"
  }

  lemma GuardTrimmed(g: string)
    requires OffGuard(g) || OnGuard(g)
    ensures g != [] && Trimmed(g)
  {
  }

  /** A line is a guard exactly when a guard text stands alone on it. */
  lemma GuardMeans(l: string)
    ensures IsOff(l) <==> exists a, g, b :: AllIn(Spaces, a) && AllIn(Spaces, b) && OffGuard(g) && l == a + g + b
    ensures IsOn(l) <==> exists a, g, b :: AllIn(Spaces, a) && AllIn(Spaces, b) && OnGuard(g) && l == a + g + b
  {
    var front, back := TrimGives(Spaces, l);
    assert l == front + Strip(l) + back;
    if a, g, b :| AllIn(Spaces, a) && AllIn(Spaces, b) && OffGuard(g) && l == a + g + b {
      GuardTrimmed(g);
      TrimOf(Spaces, a, g, b);
    }
    if a, g, b :| AllIn(Spaces, a) && AllIn(Spaces, b) && OnGuard(g) && l == a + g + b {
      GuardTrimmed(g);
      TrimOf(Spaces, a, g, b);
    }
  }
}
