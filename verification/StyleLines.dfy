/** The line checks of the style fixer (utils/check-style-clang-format.py): for each check, whether
    a line complies and what the line is replaced by. */
module StyleLines {
  import opened TextLines
  import opened ConfigText

  datatype Check = Doxygen | License(texts: LicenseTexts) | Emacs | Whitespace | Tabs

  /** A line as read from a file: only its last character may be a line feed. */
  predicate Shaped(l: string) {
    l != [] && '\n' !in l[..|l| - 1]
  }

  predicate Ended(l: string) {
    l != [] && l[|l| - 1] == '\n'
  }

  // ---- str.replace

  predicate StartsWith(t: string, p: string) { |p| <= |t| && t[..|p|] == p }

  function Replace(t: string, was: string, repl: string): string
    requires was != []
  {
    if t == [] then [] else
    if StartsWith(t, was) then repl + Replace(t[|was|..], was, repl) else [t[0]] + Replace(t[1..], was, repl)
  }

  lemma {:induction false} ReplaceNone(t: string, was: string, repl: string)
    requires was != [] && was[0] !in t
    ensures Replace(t, was, repl) == t
  {
    if t != [] {
      ReplaceNone(t[1..], was, repl);
    }
  }

  lemma {:induction false} ReplaceFirst(front: string, was: string, rest: string, repl: string)
    requires was != [] && was[0] !in front
    ensures Replace(front + was + rest, was, repl) == front + repl + Replace(rest, was, repl)
  {
    var t := front + was + rest;
    if front == [] {
      assert t == was + rest && t[|was|..] == rest;
      assert front + repl + Replace(rest, was, repl) == repl + Replace(rest, was, repl);
    } else {
      assert t[0] == front[0] && t[1..] == front[1..] + was + rest;
      ReplaceFirst(front[1..], was, rest, repl);
      assert [t[0]] + (front[1..] + repl + Replace(rest, was, repl)) == front + repl + Replace(rest, was, repl);
    }
  }

  // ---- str.expandtabs with tabs every four columns

  function Blanks(n: nat): string { seq(n, i => ' ') }

  // The column advances modulo four and starts again after a line break.
  function ColumnAfter(c: char, col: nat): nat {
    if c == '\t' || c == '\n' || c == '\r' then 0 else (col + 1) % 4
  }

  function Expand(t: string, col: nat): string
    requires col < 4
  {
    if t == [] then []
    else (if t[0] == '\t' then Blanks(4 - col) else [t[0]]) + Expand(t[1..], ColumnAfter(t[0], col))
  }

  function ColumnAt(t: string, col: nat): (c: nat)
    requires col < 4
    ensures c < 4
  {
    if t == [] then col else ColumnAt(t[1..], ColumnAfter(t[0], col))
  }

  lemma {:induction false} ExpandAppend(a: string, b: string, col: nat)
    requires col < 4
    ensures Expand(a + b, col) == Expand(a, col) + Expand(b, ColumnAt(a, col))
  {
    if a == [] {
      assert a + b == b;
    } else {
      assert (a + b)[1..] == a[1..] + b;
      ExpandAppend(a[1..], b, ColumnAfter(a[0], col));
    }
  }

  /** Within a line every tab ends at the next multiple of four columns, after at least one blank,
      and nothing but tabs is replaced. */
  lemma {:induction false} ExpandTabStops(t: string)
    requires '\n' !in t && '\r' !in t
    ensures var before, after := |Expand(t, 0)|, |Expand(t + "\t", 0)|;
      before < after <= before + 4 && after % 4 == 0
    ensures Expand(t, 0) <= Expand(t + "\t", 0)
    ensures forall i :: |Expand(t, 0)| <= i < |Expand(t + "\t", 0)| ==> Expand(t + "\t", 0)[i] == ' '
    ensures forall c: char :: c != '\t' ==> Expand(t + [c], 0) == Expand(t, 0) + [c]
  {
    ExpandAppend(t, "\t", 0);
    ColumnIsLength(t, 0);
    assert "\t"[1..] == "";
    assert Expand("\t", ColumnAt(t, 0)) == Blanks(4 - ColumnAt(t, 0)) + [];
    forall c: char | c != '\t' ensures Expand(t + [c], 0) == Expand(t, 0) + [c] {
      ExpandAppend(t, [c], 0);
      assert [c][1..] == [];
      assert Expand([c], ColumnAt(t, 0)) == [c] + [];
    }
  }

  lemma {:induction false} ColumnIsLength(t: string, col: nat)
    requires col < 4 && '\n' !in t && '\r' !in t
    ensures ColumnAt(t, col) == (col + |Expand(t, col)|) % 4
  {
    if t != [] {
      ColumnIsLength(t[1..], ColumnAfter(t[0], col));
    }
  }

  lemma {:induction false} ExpandSame(t: string, col: nat)
    requires col < 4 && '\t' !in t
    ensures Expand(t, col) == t
  {
    if t != [] {
      ExpandSame(t[1..], ColumnAfter(t[0], col));
    }
  }

  lemma {:induction false} ExpandSpaces(t: string, col: nat)
    requires col < 4 && AllIn(Spaces, t)
    ensures AllIn(Spaces, Expand(t, col))
  {
    if t != [] {
      ExpandSpaces(t[1..], ColumnAfter(t[0], col));
    }
  }

  lemma {:induction false} ExpandNoTab(t: string, col: nat)
    requires col < 4
    ensures '\t' !in Expand(t, col)
  {
    if t != [] {
      ExpandNoTab(t[1..], ColumnAfter(t[0], col));
    }
  }

  // ---- licence texts

  /** The lines of the licence text, and the identifier that the first of them is replaced by. */
  datatype LicenseTexts = LicenseTexts(gpl: seq<string>, spdx: string)

  function Licenses(): LicenseTexts { LicenseTexts(GplLines(), "SPDX-License-Identifier: GPL-2.0-only") }

  function GplLines(): seq<string> { GplOpening() + GplClosing() }

  // The first line is written in two parts so that its first letter can be seen at once in proofs.
  function GplOpening(): seq<string> {
    [
      "This program is free software;" + " you can redistribute it and/or modify",
      "it under the terms of the GNU General Public License version 2 as",
      "published by the Free Software Foundation;",
      "This program is distributed in the hope that it will be useful,",
      "but WITHOUT ANY WARRANTY; without even the implied warranty of"
    ]
  }

  function GplClosing(): seq<string> {
    [
      "MERCHANTABILITY or FITNESS FOR A PARTICULAR PURPOSE.  See the",
      "GNU General Public License for more details.",
      "You should have received a copy of the GNU General Public License",
      "along with this program; if not, write to the Free Software",
      "Foundation, Inc., 59 Temple Place, Suite 330, Boston, MA  02111-1307  USA"
    ]
  }

  /** The text of a line without surrounding space and comment markers. */
  function Core(l: string): string {
    Strip(Trim(Markers, Strip(l)))
  }

  // ---- emacs file style

  function Contains(t: string, p: string): bool {
    StartsWith(t, p) || (t != [] && Contains(t[1..], p))
  }

  predicate EmacsStyle(l: string) {
    Contains(Strip(l), "c-file-style:") || Contains(Strip(l), "py-indent-offset:")
  }

  // ---- doxygen tags

  function LeadSpaces(t: string): (n: nat)
    ensures n <= |t|
  {
    if t != [] && IsSpace(t[0]) then 1 + LeadSpaces(t[1..]) else 0
  }

  function LeadWord(u: Alphabet, t: string): (n: nat)
    ensures n <= |t|
  {
    if t != [] && IsWord(u, t[0]) then 1 + LeadWord(u, t[1..]) else 0
  }

  // The length of the comment marker a text starts with, or 0.
  function MarkerLength(t: string): (n: nat)
    ensures n <= |t|
  {
    if StartsWith(t, "*") then 1 else if StartsWith(t, "/**") || StartsWith(t, "///") then 3 else 0
  }

  // The position just after the leading space, comment marker and space of a text.
  function TagStart(t: string): (k: nat)
    ensures k <= |t|
  {
    var i := LeadSpaces(t);
    var m := MarkerLength(t[i..]);
    i + m + LeadSpaces(t[i + m..])
  }

  // A backslash at k, a word of at least three characters, and then space or the end.
  function TagAt(u: Alphabet, t: string, k: nat): string
    requires k <= |t|
  {
    if k == |t| || t[k] != '\\' then []
    else
      var n := LeadWord(u, t[k + 1..]);
      if n < 3 || (k + 1 + n < |t| && !IsSpace(t[k + 1 + n])) then [] else t[k..k + 1 + n]
  }

  /** The tag the regular expression finds at the start of a comment line, or the empty text. */
  function TagOf(u: Alphabet, l: string): string {
    var t := RTrim(Spaces, l);
    if MarkerLength(t[LeadSpaces(t)..]) == 0 then [] else TagAt(u, t, TagStart(t))
  }

  predicate Ignored(tag: string) { tag == "\\dots" || tag == "\\langle" || tag == "\\quad" }

  // ---- the checks

  predicate DoxygenComplies(u: Alphabet, l: string) {
    TagOf(u, l) == [] || Ignored(TagOf(u, l))
  }

  function DoxygenFix(u: Alphabet, l: string): string {
    var tag := TagOf(u, l);
    if tag == [] then l else Replace(l, tag, "@" + tag[1..])
  }

  predicate LicenseComplies(x: LicenseTexts, l: string) { Core(l) !in x.gpl }

  function LicenseFix(x: LicenseTexts, l: string): string {
    var core := Core(l);
    if core != [] && x.gpl != [] && core == x.gpl[0] then Replace(l, core, x.spdx) else ""
  }

  predicate WhitespaceComplies(l: string) { WhitespaceFix(l) == l }

  function WhitespaceFix(l: string): string { RTrim(Spaces, l) + "\n" }

  predicate Complies(u: Alphabet, c: Check, l: string) {
    match c
    case Doxygen => DoxygenComplies(u, l)
    case License(x) => LicenseComplies(x, l)
    case Emacs => !EmacsStyle(l)
    case Whitespace => WhitespaceComplies(l)
    case Tabs => '\t' !in l
  }

  /** What a line that does not comply is replaced by. */
  function Replacement(u: Alphabet, c: Check, l: string): string {
    match c
    case Doxygen => DoxygenFix(u, l)
    case License(x) => LicenseFix(x, l)
    case Emacs => ""
    case Whitespace => WhitespaceFix(l)
    case Tabs => Expand(l, 0)
  }

  // ---- guards

  predicate IsOn(l: string) {
    Strip(l) == "// clang-format on" || Strip(l) == "# cmake-format: on" || Strip(l) == "# fmt: on"
  }

  predicate IsOff(l: string) {
    Strip(l) == "// clang-format off" || Strip(l) == "# cmake-format: off" || Strip(l) == "# fmt: off"
  }

  

  // ---- tabs

  /** Expanding the tabs around a text leaves what strip finds in the line. */
  lemma ExpandKeepsCore(l: string)
    requires Strip(l) != [] && '\t' !in Strip(l)
    ensures Strip(Expand(l, 0)) == Strip(l)
  {
    var core := Strip(l);
    var front, back := TrimGives(Spaces, l);
    var col := ColumnAt(front, 0);
    ExpandAppend(front + core, back, 0);
    ExpandAppend(front, core, 0);
    ExpandSame(core, col);
    ExpandSpaces(front, 0);
    ExpandSpaces(back, ColumnAt(front + core, 0));
    TrimOf(Spaces, Expand(front, 0), core, Expand(back, ColumnAt(front + core, 0)));
  }

  lemma {:induction false} ExpandShaped(l: string, col: nat)
    requires Shaped(l) && col < 4
    ensures Shaped(Expand(l, col)) && (Ended(Expand(l, col)) <==> Ended(l)) && ('\r' !in l ==> '\r' !in Expand(l, col))
  {
    var rest := Expand(l[1..], ColumnAfter(l[0], col));
    if |l| > 1 {
      assert l[0] == l[..|l| - 1][0] && l[1..][..|l| - 2] == l[..|l| - 1][1..];
      ExpandShaped(l[1..], ColumnAfter(l[0], col));
      var piece := if l[0] == '\t' then Blanks(4 - col) else [l[0]];
      assert (piece + rest)[..|piece + rest| - 1] == piece + rest[..|rest| - 1];
    }
  }

  // ---- whitespace

  /** Only space at the end goes, all of it, and the fixed line complies. */
  lemma WhitespaceFixed(l: string) returns (core: string, cut: string)
    ensures l == core + cut && AllIn(Spaces, cut) && WhitespaceFix(l) == core + "\n"
    ensures core == [] || !IsSpace(core[|core| - 1])
    ensures WhitespaceComplies(WhitespaceFix(l))
  {
    core := RTrim(Spaces, l);
    cut := RTrimGives(Spaces, l);
    RTrimOf(Spaces, core, "\n");
  }

  lemma WhitespaceShaped(l: string)
    requires Shaped(l) && '\r' !in l
    ensures var f := WhitespaceFix(l); Shaped(f) && Ended(f) && '\r' !in f
  {
    var core := RTrim(Spaces, l);
    var cut := RTrimGives(Spaces, l);
    assert (core + "\n")[..|core|] == core;
    if cut == [] {
      assert core == l;
      assert l == l[..|l| - 1] + [l[|l| - 1]];
    } else {
      assert core == l[..|l| - 1][..|core|];
    }
  }
}
