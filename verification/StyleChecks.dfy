/** The five line checks of the style fixer, each run over whole files. */
module StyleChecks {
  import opened TextLines
  import opened ConfigText
  import opened StyleLines
  import opened StyleFixes
  import StyleFixer

  /** Only the check for trailing whitespace looks at guarded lines. */
  function CheckerOf(u: Alphabet, c: Check): StyleFixer.Checker {
    StyleFixer.Checker(c != Whitespace, l => IsOn(l), l => IsOff(l), l => Complies(u, c, l), l => Replacement(u, c, l))
  }

  lemma OffIsNotOn(l: string)
    ensures IsOff(l) ==> !IsOn(l)
  {
    assert IsOff(l) ==> |Strip(l)| == 19 || |Strip(l)| == 10;
    assert IsOn(l) ==> |Strip(l)| == 18 || |Strip(l)| == 9;
  }

  lemma GuardsApart(u: Alphabet, c: Check)
    ensures StyleFixer.GuardsApart(CheckerOf(u, c))
  {
    forall l | CheckerOf(u, c).off(l) ensures !CheckerOf(u, c).on(l) {
      OffIsNotOn(l);
    }
  }

  lemma EmptyIsNoGuard()
    ensures !IsOn([]) && !IsOff([])
  {
  }

  /** Each of the five checks is one whose fixes work. */
  lemma ChecksSound(u: Alphabet, c: Check)
    requires CheckOk(c)
    ensures StyleFixer.Sound(CheckerOf(u, c))
  {
    var ch := CheckerOf(u, c);
    GuardsApart(u, c);
    EmptyIsNoGuard();
    forall l | WellFormed(l) && !ch.complies(l) ensures StyleFixer.Repairs(ch, l, ch.replace(l)) {
      LineRepaired(u, c, l);
    }
    if c != Whitespace {
      forall l | ch.off(l) ensures ch.complies(l) || ch.off(ch.replace(l)) {
        OffStays(u, c, l);
      }
    }
  }

  /** Fixing any file for any of the checks and checking it again reports that it complies, wherever
      guards are and even if a fixed line becomes a guard; so a second fix changes nothing. */
  lemma FixThenCheck(u: Alphabet, c: Check, content: string)
    requires CheckOk(c)
    ensures var ch := CheckerOf(u, c); var fixed := StyleFixer.FixedContent(ch, content);
      && StyleFixer.AllComply(ch, true, StyleFixer.ReadLines(fixed))
      && StyleFixer.FixedContent(ch, fixed) == fixed
  {
    ChecksSound(u, c);
    StyleFixer.FixThenCheck(CheckerOf(u, c), content);
  }

  /** A line in a guarded region, in terms of the guard lines themselves. */
  ghost predicate Guarded(ls: seq<string>, i: nat) {
    i < |ls| && exists j :: 0 <= j < i && IsOff(ls[j]) && forall m :: j < m <= i ==> !IsOn(ls[m]) && !IsOff(ls[m])
  }

  // The line needs no fix; the whitespace check ignores guards.
  ghost predicate Fine(u: Alphabet, c: Check, ls: seq<string>, i: nat)
    requires i < |ls|
  {
    (c != Whitespace && Guarded(ls, i)) || Complies(u, c, ls[i])
  }

  ghost predicate AllFine(u: Alphabet, c: Check, ls: seq<string>) {
    forall i :: 0 <= i < |ls| ==> Fine(u, c, ls, i)
  }

  ghost function FixedLines(u: Alphabet, c: Check, ls: seq<string>): seq<string> {
    seq(|ls|, i requires 0 <= i < |ls| => if Fine(u, c, ls, i) then ls[i] else Replacement(u, c, ls[i]))
  }

  /** Checking or fixing one file: it is compliant exactly when each line complies or is guarded (the
      whitespace check ignores guards); a fix replaces exactly the other lines. */
  method CheckFile(u: Alphabet, c: Check, content: string, fix: bool, verbose: bool) returns (compliant: bool, written: string)
    ensures var ls := StyleFixer.ReadLines(content);
      && (compliant <==> AllFine(u, c, ls))
      && written == if fix && !compliant then StyleFixer.Concat(FixedLines(u, c, ls)) else content
  {
    var ch := CheckerOf(u, c);
    compliant, written := StyleFixer.CheckManually(ch, content, fix, verbose);
    FineExactly(u, c, StyleFixer.ReadLines(content));
    FixedIs(u, c, StyleFixer.ReadLines(content));
  }

  lemma FineExactly(u: Alphabet, c: Check, ls: seq<string>)
    ensures StyleFixer.AllComply(CheckerOf(u, c), true, ls) <==> AllFine(u, c, ls)
  {
    var ch := CheckerOf(u, c);
    GuardsApart(u, c);
    StyleFixer.AllComplyMeans(ch, ls);
    forall i | 0 <= i < |ls| ensures StyleFixer.Guarded(ch, ls, i) <==> Guarded(ls, i) {
      SameGuards(u, c, ls, i);
    }
    assert forall i :: 0 <= i < |ls| ==> (Fine(u, c, ls, i) <==> (ch.respects && StyleFixer.Guarded(ch, ls, i)) || ch.complies(ls[i]));
  }

  lemma FixedIs(u: Alphabet, c: Check, ls: seq<string>)
    ensures StyleFixer.FixFrom(CheckerOf(u, c), true, ls) == FixedLines(u, c, ls)
  {
    var ch := CheckerOf(u, c);
    var fixed := StyleFixer.FixFrom(ch, true, ls);
    GuardsApart(u, c);
    StyleFixer.FixLength(ch, true, ls);
    forall i | 0 <= i < |ls| ensures fixed[i] == FixedLines(u, c, ls)[i] {
      SameGuards(u, c, ls, i);
      StyleFixer.GuardedUnchanged(ch, ls, i);
    }
    assert fixed == FixedLines(u, c, ls);
  }

  lemma SameGuards(u: Alphabet, c: Check, ls: seq<string>, i: nat)
    ensures StyleFixer.Guarded(CheckerOf(u, c), ls, i) <==> Guarded(ls, i)
  {
    var ch := CheckerOf(u, c);
    assert forall m :: 0 <= m < |ls| ==> (StyleFixer.IsGuard(ch, ls[m]) <==> IsOn(ls[m]) || IsOff(ls[m]));
    if StyleFixer.Guarded(ch, ls, i) {
      var j :| 0 <= j < i && ch.off(ls[j]) && forall m :: j < m <= i ==> !StyleFixer.IsGuard(ch, ls[m]);
      assert IsOff(ls[j]);
    }
    if Guarded(ls, i) {
      var j :| 0 <= j < i && IsOff(ls[j]) && forall m :: j < m <= i ==> !IsOn(ls[m]) && !IsOff(ls[m]);
      assert ch.off(ls[j]);
    }
  }
}
