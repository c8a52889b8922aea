/** Checking or fixing one file line by line (utils/check-style-clang-format.py): reading it with
    universal newlines, walking its lines under the formatter guards, and writing it back. */
module StyleFixer {
  import opened TextLines
  import opened ConfigText
  import opened StyleLines
  import opened StyleFixes

  // ---- reading and writing

  /** Reading in text mode turns every kind of newline into a line feed. */
  function Universal(t: string): string
    decreases |t|
  {
    if t == [] then []
    else if t[0] == '\r' then ['\n'] + Universal(if |t| > 1 && t[1] == '\n' then t[2..] else t[1..])
    else [t[0]] + Universal(t[1..])
  }

  function SplitKeep(t: string): seq<string>
    decreases |t|
  {
    if t == [] then [] else
      var k := FirstOf(t, '\n');
      if k == |t| then [t] else [t[..k + 1]] + SplitKeep(t[k + 1..])
  }

  function ReadLines(content: string): seq<string> { SplitKeep(Universal(content)) }

  function Concat(ls: seq<string>): string {
    if ls == [] then [] else ls[0] + Concat(ls[1..])
  }

  function NonEmpty(ls: seq<string>): seq<string> {
    if ls == [] then [] else if ls[0] == [] then NonEmpty(ls[1..]) else [ls[0]] + NonEmpty(ls[1..])
  }

  /** A line up to its newline, of whichever kind, is read with a line feed. */
  lemma {:induction false} UniversalLine(a: string, newline: string, b: string)
    requires '\r' !in a && '\n' !in a
    requires newline == "\n" || newline == "\r\n" || (newline == "\r" && (b == [] || b[0] != '\n'))
    ensures Universal(a + newline + b) == a + "\n" + Universal(b)
  {
    var t := a + newline + b;
    if a != [] {
      assert t[0] == a[0] && t[1..] == a[1..] + newline + b;
      UniversalLine(a[1..], newline, b);
      assert [a[0]] + (a[1..] + "\n" + Universal(b)) == a + "\n" + Universal(b);
    } else {
      assert t == newline + b;
      assert t[|newline|..] == b;
    }
  }

  lemma {:induction false} UniversalNoReturn(t: string)
    ensures '\r' !in Universal(t)
    decreases |t|
  {
    if t != [] {
      UniversalNoReturn(if t[0] == '\r' && |t| > 1 && t[1] == '\n' then t[2..] else t[1..]);
    }
  }

  lemma {:induction false} UniversalSame(t: string)
    requires '\r' !in t
    ensures Universal(t) == t
    decreases |t|
  {
    if t != [] {
      UniversalSame(t[1..]);
    }
  }

  predicate LineFits(l: string, last: bool) {
    WellFormed(l) && (last || Ended(l))
  }

  // The lines of a file, some of which may have been emptied.
  predicate FileLines(ls: seq<string>) {
    forall i :: 0 <= i < |ls| ==> ls[i] == [] || LineFits(ls[i], i == |ls| - 1)
  }

  lemma FirstLineFits(t: string)
    requires t != [] && '\r' !in t
    ensures var k := FirstOf(t, '\n');
      if k == |t| then WellFormed(t) else LineFits(t[..k + 1], false)
  {
    var k := FirstOf(t, '\n');
    if k == |t| {
      assert t[..|t|] == t;
    } else {
      var l := t[..k + 1];
      assert l[..|l| - 1] == t[..k];
    }
  }

  lemma ConsFits(l: string, rest: seq<string>)
    requires FileLines(rest) && (l == [] || LineFits(l, rest == []))
    ensures FileLines([l] + rest)
  {
    var all := [l] + rest;
    forall i | 0 <= i < |all| ensures all[i] == [] || LineFits(all[i], i == |all| - 1) {
      assert i > 0 ==> all[i] == rest[i - 1];
    }
  }

  predicate NoneEmpty(ls: seq<string>) {
    forall i :: 0 <= i < |ls| ==> ls[i] != []
  }

  lemma {:induction false} SplitOnce(t: string)
    requires t != []
    ensures var k := FirstOf(t, '\n');
      SplitKeep(t) == if k == |t| then [t] else [t[..k + 1]] + SplitKeep(t[k + 1..])
  {
  }

  lemma ConsNonEmpty(l: string, rest: seq<string>)
    requires l != [] && NoneEmpty(rest)
    ensures NoneEmpty([l] + rest) && NoneEmpty([l])
  {
  }

  lemma {:induction false} SplitFits(t: string)
    requires '\r' !in t
    ensures FileLines(SplitKeep(t)) && NoneEmpty(SplitKeep(t))
    decreases |t|
  {
    if t != [] {
      FirstLineFits(t);
      SplitOnce(t);
      var k := FirstOf(t, '\n');
      if k < |t| {
        var first, rest := t[..k + 1], t[k + 1..];
        SplitFits(rest);
        ConsFits(first, SplitKeep(rest));
        ConsNonEmpty(first, SplitKeep(rest));
      } else {
        ConsFits(t, []);
        ConsNonEmpty(t, []);
        assert [t] + [] == [t];
      }
    }
  }

  /** Splitting loses nothing: the lines, one after the other, are the text. */
  lemma {:induction false} SplitJoins(t: string)
    ensures Concat(SplitKeep(t)) == t
    decreases |t|
  {
    if t != [] {
      var k := FirstOf(t, '\n');
      if k < |t| {
        SplitJoins(t[k + 1..]);
      } else {
        assert [t][1..] == [];
      }
    }
  }

  lemma SplitCons(l: string, t: string)
    requires LineFits(l, t == [])
    ensures SplitKeep(l + t) == [l] + SplitKeep(t)
  {
    var k := |l| - 1;
    if Ended(l) {
      assert (l + t)[..k] == l[..k] && (l + t)[..k + 1] == l && (l + t)[k + 1..] == t;
      FirstOfIs(l + t, '\n', k);
    } else {
      assert l == l[..k] + [l[k]] && '\n' !in l;
      assert l + t == l && l[..|l|] == l;
      FirstOfIs(l, '\n', |l|);
      assert SplitKeep(t) == [];
    }
  }

  lemma TailLines(ls: seq<string>)
    requires FileLines(ls) && ls != []
    ensures FileLines(ls[1..])
  {
    forall i | 0 <= i < |ls| - 1 ensures ls[1..][i] == [] || LineFits(ls[1..][i], i == |ls| - 2) {
      assert ls[i + 1] == [] || LineFits(ls[i + 1], i + 1 == |ls| - 1);
    }
  }

  /** Writing the lines and reading them again gives the lines that are not empty. */
  lemma {:induction false} ReadBack(ls: seq<string>)
    requires FileLines(ls)
    ensures SplitKeep(Concat(ls)) == NonEmpty(ls) && '\r' !in Concat(ls)
  {
    if ls != [] {
      TailLines(ls);
      ReadBack(ls[1..]);
      assert ls[0] == [] || LineFits(ls[0], 0 == |ls| - 1);
      if ls[0] == [] {
        assert Concat(ls) == Concat(ls[1..]);
      } else {
        assert |ls| == 1 ==> Concat(ls[1..]) == [];
        SplitCons(ls[0], Concat(ls[1..]));
      }
    }
  }

  // ---- the walk over the lines

  /** What check_manually_file is given: whether to respect guards, the guards, and the line check. */
  datatype Checker = Checker(
    respects: bool,
    on: string -> bool,
    off: string -> bool,
    complies: string -> bool,
    replace: string -> string)

  predicate IsGuard(ch: Checker, l: string) { ch.on(l) || ch.off(l) }

  // A replaced line is gone, or a line of the same shape that complies.
  predicate Repairs(ch: Checker, l: string, f: string) {
    f == [] || (WellFormed(f) && (Ended(l) ==> Ended(f)) && ch.complies(f))
  }

  ghost predicate GuardsApart(ch: Checker) {
    forall l :: ch.off(l) ==> !ch.on(l)
  }

  /** A check whose fixes work: they repair lines, and never lose a guard that switches checks off. */
  ghost predicate Sound(ch: Checker) {
    && (forall l :: WellFormed(l) && !ch.complies(l) ==> Repairs(ch, l, ch.replace(l)))
    && GuardsApart(ch) && !ch.on([]) && !ch.off([])
    && (ch.respects ==> forall l :: ch.off(l) ==> ch.complies(l) || ch.off(ch.replace(l)))
  }

  function After(ch: Checker, enabled: bool, l: string): bool {
    if ch.on(l) then true else if ch.off(l) then false else enabled
  }

  /** Whether the check looks at a line, given the flag after the line itself. */
  predicate Checked(ch: Checker, enabled: bool, l: string) {
    !ch.respects || enabled || IsGuard(ch, l)
  }

  function FixLine(ch: Checker, enabled: bool, l: string): string {
    if Checked(ch, enabled, l) && !ch.complies(l) then ch.replace(l) else l
  }

  function FixFrom(ch: Checker, enabled: bool, ls: seq<string>): seq<string>
    decreases |ls|
  {
    if ls == [] then []
    else [FixLine(ch, After(ch, enabled, ls[0]), ls[0])] + FixFrom(ch, After(ch, enabled, ls[0]), ls[1..])
  }

  predicate AllComply(ch: Checker, enabled: bool, ls: seq<string>)
    decreases |ls|
  {
    ls == []
    || ((Checked(ch, After(ch, enabled, ls[0]), ls[0]) ==> ch.complies(ls[0]))
        && AllComply(ch, After(ch, enabled, ls[0]), ls[1..]))
  }

  // The walk has come to line i: the lines before it are fixed, the others as they were.
  ghost predicate Walked(ch: Checker, ls: seq<string>, i: nat, enabled: bool, lines: seq<string>, compliant: bool) {
    && i <= |ls| == |lines| && lines[i..] == ls[i..]
    && lines[..i] + FixFrom(ch, enabled, ls[i..]) == FixFrom(ch, true, ls)
    && AllComply(ch, true, ls) == (compliant && AllComply(ch, enabled, ls[i..]))
  }

  lemma WalkStarts(ch: Checker, ls: seq<string>)
    ensures Walked(ch, ls, 0, true, ls, true)
  {
    assert ls[0..] == ls;
    assert ls[..0] + FixFrom(ch, true, ls) == FixFrom(ch, true, ls);
  }

  lemma Replaced<T>(lines: seq<T>, i: nat, x: T, rest: seq<T>)
    requires i < |lines|
    ensures lines[i := x][i + 1..] == lines[i + 1..] == lines[i..][1..] && lines[i] == lines[i..][0]
    ensures lines[i := x][..i + 1] + rest == lines[..i] + ([x] + rest)
  {
    assert lines[i := x][..i + 1] == lines[..i] + [x];
  }

  lemma FixNext(ch: Checker, ls: seq<string>, i: nat, enabled: bool)
    requires i < |ls|
    ensures var e := After(ch, enabled, ls[i]);
      && FixFrom(ch, enabled, ls[i..]) == [FixLine(ch, e, ls[i])] + FixFrom(ch, e, ls[i + 1..])
      && (AllComply(ch, enabled, ls[i..]) <==>
           (Checked(ch, e, ls[i]) ==> ch.complies(ls[i])) && AllComply(ch, e, ls[i + 1..]))
  {
    assert ls[i..][0] == ls[i] && ls[i..][1..] == ls[i + 1..];
  }

  lemma WalkStep(ch: Checker, ls: seq<string>, i: nat, enabled: bool, lines: seq<string>, compliant: bool)
    requires Walked(ch, ls, i, enabled, lines, compliant) && i < |ls|
    ensures lines[i] == ls[i]
    ensures var e := After(ch, enabled, ls[i]); var l' := FixLine(ch, e, ls[i]);
      Walked(ch, ls, i + 1, e, lines[i := l'], compliant && (Checked(ch, e, ls[i]) ==> ch.complies(ls[i])))
  {
    var e := After(ch, enabled, ls[i]);
    var l' := FixLine(ch, e, ls[i]);
    FixNext(ch, ls, i, enabled);
    Replaced(lines, i, l', FixFrom(ch, e, ls[i + 1..]));
    Replaced(ls, i, l', []);
  }

  lemma WalkEnds(ch: Checker, ls: seq<string>, enabled: bool, lines: seq<string>, compliant: bool)
    requires Walked(ch, ls, |ls|, enabled, lines, compliant)
    ensures lines == FixFrom(ch, true, ls) && compliant == AllComply(ch, true, ls)
  {
    assert lines[..|ls|] == lines;
  }

  /** check_manually_file. */
  method CheckManually(ch: Checker, content: string, fix: bool, verbose: bool)
    returns (compliant: bool, written: string)
    ensures compliant == AllComply(ch, true, ReadLines(content))
    ensures written == if fix && !compliant then Concat(FixFrom(ch, true, ReadLines(content))) else content
  {
    compliant, written := true, content;
    var enabled := true;
    var fileLines := ReadLines(content);
    ghost var ls := fileLines;
    WalkStarts(ch, ls);
    var i := 0;
    while i < |fileLines|
      invariant 0 <= i <= |fileLines| == |ls|
      invariant Walked(ch, ls, i, enabled, fileLines, compliant)
    {
      WalkStep(ch, ls, i, enabled, fileLines, compliant);
      var line := fileLines[i];
      assert fileLines == fileLines[i := line];
      if ch.on(line) {
        enabled := true;
      } else if ch.off(line) {
        enabled := false;
      }
      if ch.respects && !enabled && !IsGuard(ch, line) {
        i := i + 1;
        continue;
      }
      if !ch.complies(line) {
        compliant := false;
        fileLines := fileLines[i := ch.replace(line)];
        if !fix && !verbose {
          return;
        }
      }
      i := i + 1;
    }
    WalkEnds(ch, ls, enabled, fileLines, compliant);
    if fix && !compliant {
      written := Concat(fileLines);
    }
  }

  // ---- fix, then check

  lemma OffLineStays(ch: Checker, l: string, enabled: bool)
    requires Sound(ch) && ch.respects && ch.off(l)
    ensures ch.off(FixLine(ch, enabled, l))
  {
  }

  // One line: after the fix the flag is on only where it was on before, and what is checked complies.
  lemma LineSafe(ch: Checker, f: bool, g: bool, l: string)
    requires Sound(ch) && WellFormed(l) && (ch.respects ==> (g ==> f))
    ensures var f' := After(ch, f, l); var l' := FixLine(ch, f', l);
      && (ch.respects ==> (After(ch, g, l') ==> f'))
      && (l' != [] && Checked(ch, After(ch, g, l'), l') ==> ch.complies(l'))
      && (l' == [] || (WellFormed(l') && (Ended(l) ==> Ended(l'))))
  {
    var f' := After(ch, f, l);
    var l' := FixLine(ch, f', l);
    if ch.respects && ch.off(l) {
      OffLineStays(ch, l, f');
    }
    if !ch.complies(l) {
      assert Repairs(ch, l, ch.replace(l));
    }
  }

  lemma {:induction false} RecheckComplies(ch: Checker, f: bool, g: bool, ls: seq<string>)
    requires Sound(ch) && (forall i :: 0 <= i < |ls| ==> WellFormed(ls[i])) && (ch.respects ==> (g ==> f))
    ensures AllComply(ch, g, NonEmpty(FixFrom(ch, f, ls)))
    decreases |ls|
  {
    if ls != [] {
      var f' := After(ch, f, ls[0]);
      var l' := FixLine(ch, f', ls[0]);
      var rest := FixFrom(ch, f', ls[1..]);
      assert ([l'] + rest)[1..] == rest;
      LineSafe(ch, f, g, ls[0]);
      RecheckComplies(ch, f', After(ch, g, l'), ls[1..]);
      if l' != [] {
        assert ([l'] + NonEmpty(rest))[1..] == NonEmpty(rest);
      }
    }
  }

  lemma {:induction false} FixFits(ch: Checker, f: bool, ls: seq<string>)
    requires Sound(ch) && FileLines(ls) && NoneEmpty(ls)
    ensures FileLines(FixFrom(ch, f, ls)) && |FixFrom(ch, f, ls)| == |ls|
    decreases |ls|
  {
    if ls != [] {
      var f' := After(ch, f, ls[0]);
      TailLines(ls);
      FixFits(ch, f', ls[1..]);
      assert LineFits(ls[0], 0 == |ls| - 1);
      LineSafe(ch, f, f, ls[0]);
      ConsFits(FixLine(ch, f', ls[0]), FixFrom(ch, f', ls[1..]));
    }
  }

  /** What a fix leaves in the file. */
  function FixedContent(ch: Checker, content: string): string {
    if AllComply(ch, true, ReadLines(content)) then content
    else Concat(FixFrom(ch, true, ReadLines(content)))
  }

  /** A fixed file, read again, consists of the fixed lines that are not empty. */
  lemma FixedFileReadsBack(ch: Checker, content: string)
    requires Sound(ch)
    ensures ReadLines(Concat(FixFrom(ch, true, ReadLines(content))))
         == NonEmpty(FixFrom(ch, true, ReadLines(content)))
  {
    var ls := ReadLines(content);
    var fixed := FixFrom(ch, true, ls);
    UniversalNoReturn(content);
    SplitFits(Universal(content));
    FixFits(ch, true, ls);
    ReadBack(fixed);
    UniversalSame(Concat(fixed));
  }

  /** Fixing any file and then checking it reports that it complies, for every check, wherever guards
      are and even if a fixed line becomes a guard; so a second fix changes nothing. */
  lemma FixThenCheck(ch: Checker, content: string)
    requires Sound(ch)
    ensures AllComply(ch, true, ReadLines(FixedContent(ch, content)))
    ensures FixedContent(ch, FixedContent(ch, content)) == FixedContent(ch, content)
  {
    var ls := ReadLines(content);
    if !AllComply(ch, true, ls) {
      UniversalNoReturn(content);
      SplitFits(Universal(content));
      assert forall i :: 0 <= i < |ls| ==> WellFormed(ls[i]) by {
        forall i | 0 <= i < |ls| ensures WellFormed(ls[i]) {
          assert LineFits(ls[i], i == |ls| - 1);
        }
      }
      FixedFileReadsBack(ch, content);
      RecheckComplies(ch, true, true, ls);
    }
  }

  // ---- guarded lines

  /** A line in a guarded region: the last guard at or before it switches the checks off, and it is
      not a guard itself. */
  predicate Guarded(ch: Checker, ls: seq<string>, i: nat) {
    i < |ls| && exists j :: 0 <= j < i && ch.off(ls[j]) && forall m :: j < m <= i ==> !IsGuard(ch, ls[m])
  }

  // The flag before the first line comes from a guard line before the file, if it is off.
  predicate GuardedFrom(ch: Checker, enabled: bool, ls: seq<string>, i: nat) {
    Guarded(ch, ls, i) || (i < |ls| && !enabled && forall m :: 0 <= m <= i ==> !IsGuard(ch, ls[m]))
  }

  lemma GuardedTail(ch: Checker, enabled: bool, ls: seq<string>, i: nat)
    requires 0 < i < |ls| && GuardsApart(ch)
    ensures GuardedFrom(ch, enabled, ls, i) <==> GuardedFrom(ch, After(ch, enabled, ls[0]), ls[1..], i - 1)
  {
    assert ch.off(ls[0]) ==> !ch.on(ls[0]);
    var t := ls[1..];
    if Guarded(ch, t, i - 1) {
      var j :| 0 <= j < i - 1 && ch.off(t[j]) && forall m :: j < m <= i - 1 ==> !IsGuard(ch, t[m]);
      assert ch.off(ls[j + 1]);
      forall m | j + 1 < m <= i ensures !IsGuard(ch, ls[m]) {
        assert ls[m] == t[m - 1];
      }
    }
    if forall m :: 0 <= m <= i - 1 ==> !IsGuard(ch, t[m]) {
      forall m | 0 < m <= i ensures !IsGuard(ch, ls[m]) {
        assert ls[m] == t[m - 1];
      }
    }
    if Guarded(ch, ls, i) {
      var j :| 0 <= j < i && ch.off(ls[j]) && forall m :: j < m <= i ==> !IsGuard(ch, ls[m]);
      forall m | j <= m <= i - 1 ensures !IsGuard(ch, t[m]) {
        assert t[m] == ls[m + 1];
      }
      assert j > 0 ==> ch.off(t[j - 1]);
    }
    if forall m :: 0 <= m <= i ==> !IsGuard(ch, ls[m]) {
      forall m | 0 <= m <= i - 1 ensures !IsGuard(ch, t[m]) {
        assert t[m] == ls[m + 1];
      }
    }
  }

  lemma {:induction false} FixedAt(ch: Checker, enabled: bool, ls: seq<string>, i: nat)
    requires i < |ls| && GuardsApart(ch)
    ensures |FixFrom(ch, enabled, ls)| == |ls|
    ensures FixFrom(ch, enabled, ls)[i] ==
      if (ch.respects && GuardedFrom(ch, enabled, ls, i)) || ch.complies(ls[i]) then ls[i] else ch.replace(ls[i])
    decreases |ls|
  {
    var e := After(ch, enabled, ls[0]);
    FixLength(ch, enabled, ls);
    if i > 0 {
      FixedAt(ch, e, ls[1..], i - 1);
      GuardedTail(ch, enabled, ls, i);
      assert FixFrom(ch, enabled, ls)[i] == FixFrom(ch, e, ls[1..])[i - 1];
    } else {
      FirstGuarded(ch, enabled, ls);
    }
  }

  lemma {:induction false} FixLength(ch: Checker, enabled: bool, ls: seq<string>)
    ensures |FixFrom(ch, enabled, ls)| == |ls|
    decreases |ls|
  {
    if ls != [] {
      FixLength(ch, After(ch, enabled, ls[0]), ls[1..]);
    }
  }

  lemma FirstGuarded(ch: Checker, enabled: bool, ls: seq<string>)
    requires ls != []
    ensures GuardedFrom(ch, enabled, ls, 0) <==> !After(ch, enabled, ls[0]) && !IsGuard(ch, ls[0])
  {
    assert !Guarded(ch, ls, 0);
  }

  /** A fix leaves every guarded line as it is when the check respects guards, leaves every line that
      complies, and replaces all others. */
  lemma GuardedUnchanged(ch: Checker, ls: seq<string>, i: nat)
    requires i < |ls| && GuardsApart(ch)
    ensures |FixFrom(ch, true, ls)| == |ls|
    ensures FixFrom(ch, true, ls)[i] ==
      if (ch.respects && Guarded(ch, ls, i)) || ch.complies(ls[i]) then ls[i] else ch.replace(ls[i])
  {
    FixedAt(ch, true, ls, i);
  }

  lemma {:induction false} CompliesAt(ch: Checker, enabled: bool, ls: seq<string>)
    requires GuardsApart(ch)
    ensures AllComply(ch, enabled, ls) <==>
      forall i :: 0 <= i < |ls| ==> (ch.respects && GuardedFrom(ch, enabled, ls, i)) || ch.complies(ls[i])
    decreases |ls|
  {
    if ls != [] {
      var e, t := After(ch, enabled, ls[0]), ls[1..];
      CompliesAt(ch, e, t);
      FirstGuarded(ch, enabled, ls);
      forall i | 0 < i < |ls| ensures GuardedFrom(ch, enabled, ls, i) <==> GuardedFrom(ch, e, t, i - 1) {
        GuardedTail(ch, enabled, ls, i);
      }
      if AllComply(ch, enabled, ls) {
        forall i | 0 <= i < |ls| ensures (ch.respects && GuardedFrom(ch, enabled, ls, i)) || ch.complies(ls[i]) {
          assert i > 0 ==> ((ch.respects && GuardedFrom(ch, e, t, i - 1)) || ch.complies(t[i - 1]));
        }
      } else if AllComply(ch, e, t) {
        assert !((ch.respects && GuardedFrom(ch, enabled, ls, 0)) || ch.complies(ls[0]));
      } else {
        var i :| 0 <= i < |t| && !((ch.respects && GuardedFrom(ch, e, t, i)) || ch.complies(t[i]));
        assert !((ch.respects && GuardedFrom(ch, enabled, ls, i + 1)) || ch.complies(ls[i + 1]));
      }
    }
  }

  /** A file complies exactly when each of its lines is guarded, for a check that respects guards, or
      complies. */
  lemma AllComplyMeans(ch: Checker, ls: seq<string>)
    requires GuardsApart(ch)
    ensures AllComply(ch, true, ls) <==>
      forall i :: 0 <= i < |ls| ==> (ch.respects && Guarded(ch, ls, i)) || ch.complies(ls[i])
  {
    CompliesAt(ch, true, ls);
    assert forall i :: 0 <= i < |ls| ==> (GuardedFrom(ch, true, ls, i) <==> Guarded(ch, ls, i));
  }
}
