/**
 * The e-mail pattern shared by the staff schema and three client forms,
 *   ^\w+([.-]?\w+)*@\w+([.-]?\w+)*(\.\w{2,3})+$
 * written as a recognizer over characters with `\w` = [A-Za-z0-9_], the looser
 * pattern of the TypeScript login page, ^[^\s@]+@[^\s@]+\.[^\s@]+$, and the
 * phone pattern of the staff form, ^\+?[0-9]{10,15}$.
 */
module EmailPattern {
  import opened Text

  /** `\w` without the `u` flag. */
  predicate IsWordChar(c: char) {
    'A' <= c <= 'Z' || 'a' <= c <= 'z' || '0' <= c <= '9' || c == '_'
  }

  /** The class `[.-]`. */
  predicate IsSep(c: char) {
    c == '.' || c == '-'
  }

  /**
   * `\w+([.-]?\w+)*` as the right-linear grammar it denotes:
   * D ::= w | w D | w s D   (w a word character, s a separator).
   */
  predicate Dotted(s: string)
    decreases |s|
  {
    |s| >= 1 && IsWordChar(s[0]) &&
    (|s| == 1 || Dotted(s[1..]) || (IsSep(s[1]) && Dotted(s[2..])))
  }

  /** The same language described by its shape. */
  predicate DottedShape(s: string) {
    && |s| >= 1
    && IsWordChar(s[0])
    && IsWordChar(s[|s| - 1])
    && (forall i :: 0 <= i < |s| ==> IsWordChar(s[i]) || IsSep(s[i]))
    && (forall i :: 0 < i < |s| && IsSep(s[i]) ==> IsWordChar(s[i - 1]))
  }

  /** `(\.\w{2,3})+`: one or more groups of a dot and two or three word characters. */
  predicate TldRun(u: string)
    decreases |u|
  {
    |u| >= 3 && u[0] == '.' && IsWordChar(u[1]) && IsWordChar(u[2]) &&
    ( (|u| == 3 || TldRun(u[3..]))
      || (|u| >= 4 && IsWordChar(u[3]) && (|u| == 4 || TldRun(u[4..]))) )
  }

  /** What follows the `@`: `\w+([.-]?\w+)*(\.\w{2,3})+`. */
  predicate DomainPart(t: string) {
    exists j | 1 <= j < |t| :: Dotted(t[..j]) && TldRun(t[j..])
  }

  /** The whole pattern as its grammar reads it, anchored at both ends. */
  predicate MatchesPattern(s: string) {
    exists i | 0 <= i < |s| :: s[i] == '@' && Dotted(s[..i]) && DomainPart(s[i + 1..])
  }

  /**
   * The states of a left-to-right scanner for the same pattern. `Domain(run)` has read a
   * domain ending with a word character; `run` counts, up to 4, the word characters after
   * the domain's last separator when that separator is a `.`, and is 0 otherwise.
   */
  datatype State =
    | Start
    | Local
    | LocalSep
    | At
    | Domain(run: nat)
    | DomainSep(dot: bool)
    | Reject

  function Step(q: State, c: char): State {
    match q
    case Start => if IsWordChar(c) then Local else Reject
    case Local =>
      if IsWordChar(c) then Local
      else if IsSep(c) then LocalSep
      else if c == '@' then At
      else Reject
    case LocalSep => if IsWordChar(c) then Local else Reject
    case At => if IsWordChar(c) then Domain(0) else Reject
    case Domain(r) =>
      if IsWordChar(c) then Domain(if r == 0 then 0 else if r < 4 then r + 1 else 4)
      else if IsSep(c) then DomainSep(c == '.')
      else Reject
    case DomainSep(d) => if IsWordChar(c) then Domain(if d then 1 else 0) else Reject
    case Reject => Reject
  }

  function Run(s: string): State
    decreases |s|
  {
    if s == [] then Start else Step(Run(s[..|s| - 1]), s[|s| - 1])
  }

  /** The schema's e-mail match: the scanner ends in a domain whose last group is `.` and two or three word characters. */
  predicate IsEmail(s: string) {
    Run(s) == Domain(2) || Run(s) == Domain(3)
  }

  /** `[^\s@]`. */
  predicate IsPlain(c: char) {
    !IsSpace(c) && c != '@'
  }

  /** `^[^\s@]+@[^\s@]+\.[^\s@]+$`, the check of the TypeScript login page. */
  predicate IsLooseEmail(s: string) {
    exists i, k | 0 < i && i + 1 < k < |s| - 1 ::
      s[i] == '@' && s[k] == '.' &&
      (forall m :: 0 <= m < |s| && m != i ==> IsPlain(s[m]))
  }

  /** `^\+?[0-9]{10,15}$`. */
  predicate IsPhone(s: string) {
    var digits := if s != [] && s[0] == '+' then s[1..] else s;
    10 <= |digits| <= 15 && AllDigits(digits)
  }

  // ---------------------------------------------------------------------
  // The grammar and the shape describe the same strings.
  // ---------------------------------------------------------------------

  lemma {:induction false} DottedHasShape(s: string)
    requires Dotted(s)
    ensures DottedShape(s)
    decreases |s|
  {
    if |s| > 1 {
      if Dotted(s[1..]) {
        DottedHasShape(s[1..]);
        assert forall i :: 1 <= i < |s| ==> s[i] == s[1..][i - 1];
      } else {
        DottedHasShape(s[2..]);
        assert forall i :: 2 <= i < |s| ==> s[i] == s[2..][i - 2];
      }
    }
  }

  lemma {:induction false} ShapeIsDotted(s: string)
    requires DottedShape(s)
    ensures Dotted(s)
    decreases |s|
  {
    if |s| > 1 {
      if IsWordChar(s[1]) {
        assert forall i :: 0 <= i < |s| - 1 ==> s[1..][i] == s[i + 1];
        ShapeIsDotted(s[1..]);
      } else {
        assert IsSep(s[1]) && IsWordChar(s[|s| - 1]);
        assert IsWordChar(s[2]);
        assert forall i :: 0 <= i < |s| - 2 ==> s[2..][i] == s[i + 2];
        ShapeIsDotted(s[2..]);
      }
    }
  }

  /** `\w+([.-]?\w+)*` accepts exactly the non-empty strings over `[\w.-]` that start and end
      with a word character and never have a separator after a separator. */
  lemma DottedIffShape(s: string)
    ensures Dotted(s) <==> DottedShape(s)
  {
    if Dotted(s) { DottedHasShape(s); }
    if DottedShape(s) { ShapeIsDotted(s); }
  }

  lemma {:induction false} TldRunChars(u: string)
    requires TldRun(u)
    ensures u[0] == '.' && |u| >= 3
    ensures forall m :: 0 <= m < |u| ==> u[m] == '.' || IsWordChar(u[m])
    ensures forall m :: 0 < m < |u| && u[m] == '.' ==> IsWordChar(u[m - 1])
    decreases |u|
  {
    if |u| > 3 && TldRun(u[3..]) {
      TldRunChars(u[3..]);
      assert forall m :: 3 <= m < |u| ==> u[m] == u[3..][m - 3];
    }
    if |u| > 4 && IsWordChar(u[3]) && TldRun(u[4..]) {
      TldRunChars(u[4..]);
      assert forall m :: 4 <= m < |u| ==> u[m] == u[4..][m - 4];
    }
  }

  // ---------------------------------------------------------------------
  // The scanner accepts exactly the strings the grammar describes.
  // ---------------------------------------------------------------------

  /** The number of word characters at the end of `t`. */
  function TrailingWords(t: string): (k: nat)
    ensures k <= |t|
    ensures forall m :: |t| - k <= m < |t| ==> IsWordChar(t[m])
    ensures k < |t| ==> !IsWordChar(t[|t| - 1 - k])
    decreases |t|
  {
    if t != [] && IsWordChar(t[|t| - 1]) then TrailingWords(t[..|t| - 1]) + 1 else 0
  }

  /** What `Domain(run)` records about the domain `t` read so far. */
  function DotRun(t: string): nat {
    var k := TrailingWords(t);
    if k < |t| && t[|t| - 1 - k] == '.' then (if k < 4 then k else 4) else 0
  }

  /** `s` is a dotted local part, an `@` at `i`, and a dotted domain whose `DotRun` is `r`. */
  predicate DomainAt(s: string, i: int, r: nat) {
    && 0 < i < |s| - 1
    && s[i] == '@' && DottedShape(s[..i]) && DottedShape(s[i + 1..])
    && r == DotRun(s[i + 1..])
  }

  /** `s` is a dotted local part, an `@` at `i`, a dotted domain and then one separator. */
  predicate DomainSepAt(s: string, i: int, d: bool) {
    && 0 < i < |s| - 2
    && s[i] == '@' && DottedShape(s[..i]) && DottedShape(s[i + 1..|s| - 1])
    && IsSep(s[|s| - 1]) && d == (s[|s| - 1] == '.')
  }

  /** What having read `s` and reached `q` tells about `s`. */
  ghost predicate Reached(q: State, s: string) {
    match q
    case Start => s == []
    case Local => DottedShape(s)
    case LocalSep => |s| >= 2 && DottedShape(s[..|s| - 1]) && IsSep(s[|s| - 1])
    case At => |s| >= 2 && DottedShape(s[..|s| - 1]) && s[|s| - 1] == '@'
    case Domain(r) => exists i :: DomainAt(s, i, r)
    case DomainSep(d) => exists i :: DomainSepAt(s, i, d)
    case Reject => true
  }

  lemma {:induction false} TrailingWordsAppend(x: string, y: string)
    ensures TrailingWords(x + y) == if TrailingWords(y) < |y| then TrailingWords(y) else TrailingWords(x) + |y|
    decreases |y|
  {
    if y == [] {
      assert x + y == x;
    } else {
      var y' := y[..|y| - 1];
      assert (x + y)[..|x + y| - 1] == x + y';
      assert y[..|y| - 1] == y';
      if IsWordChar(y[|y| - 1]) {
        TrailingWordsAppend(x, y');
      }
    }
  }

  /** A suffix whose trailing word characters stop at a character of its own decides `DotRun`. */
  lemma DotRunAppend(x: string, y: string)
    requires TrailingWords(y) < |y|
    ensures TrailingWords(x + y) < |x + y| && DotRun(x + y) == DotRun(y)
  {
    TrailingWordsAppend(x, y);
    var k := TrailingWords(y);
    assert (x + y)[|x + y| - 1 - k] == y[|y| - 1 - k];
  }

  lemma DotRunWord(t: string, c: char)
    requires t != [] && IsWordChar(t[|t| - 1]) && IsWordChar(c)
    ensures DotRun(t + [c]) == (if DotRun(t) == 0 then 0 else if DotRun(t) < 4 then DotRun(t) + 1 else 4)
  {
    TrailingWordsAppend(t, [c]);
    var k := TrailingWords(t);
    if k < |t| {
      assert (t + [c])[|t| - 1 - k] == t[|t| - 1 - k];
    }
  }

  lemma DotRunAfterSep(t: string, sep: char, c: char)
    requires IsSep(sep) && IsWordChar(c)
    ensures DotRun(t + [sep] + [c]) == (if sep == '.' then 1 else 0)
  {
    TrailingWordsAppend(t + [sep], [c]);
    TrailingWordsAppend(t, [sep]);
    assert (t + [sep] + [c])[|t|] == sep;
  }

  lemma ShapeExtendWord(t: string, c: char)
    requires DottedShape(t) && IsWordChar(c)
    ensures DottedShape(t + [c])
  {
    assert forall m :: 0 <= m < |t| ==> (t + [c])[m] == t[m];
  }

  lemma ShapeExtendSepWord(t: string, sep: char, c: char)
    requires DottedShape(t) && IsSep(sep) && IsWordChar(c)
    ensures DottedShape(t + [sep] + [c])
  {
    assert forall m :: 0 <= m < |t| ==> (t + [sep] + [c])[m] == t[m];
  }

  /** A prefix of a dotted string that ends in a word character is dotted. */
  lemma ShapePrefix(t: string, j: nat)
    requires DottedShape(t) && 1 <= j <= |t| && IsWordChar(t[j - 1])
    ensures DottedShape(t[..j])
  {
    assert forall m :: 0 <= m < j ==> t[..j][m] == t[m];
  }

  lemma StepFromAt(p: string, c: char)
    requires Reached(At, p) && IsWordChar(c)
    ensures DomainAt(p + [c], |p| - 1, 0)
  {
    var s := p + [c];
    var i := |p| - 1;
    assert s[..i] == p[..|p| - 1];
    assert s[i + 1..] == [c];
    assert TrailingWords([c]) == 1 by {
      assert [c][..0] == [];
    }
  }

  lemma StepFromDomain(p: string, c: char, i: int, r: nat)
    requires DomainAt(p, i, r)
    ensures IsWordChar(c) ==> DomainAt(p + [c], i, if r == 0 then 0 else if r < 4 then r + 1 else 4)
    ensures IsSep(c) ==> DomainSepAt(p + [c], i, c == '.')
  {
    var s := p + [c];
    var t := p[i + 1..];
    assert s[..i] == p[..i];
    if IsWordChar(c) {
      assert s[i + 1..] == t + [c];
      ShapeExtendWord(t, c);
      DotRunWord(t, c);
    }
    assert s[i + 1..|s| - 1] == t;
  }

  lemma StepFromDomainSep(p: string, c: char, i: int, d: bool)
    requires DomainSepAt(p, i, d) && IsWordChar(c)
    ensures DomainAt(p + [c], i, if d then 1 else 0)
  {
    var s := p + [c];
    var t := p[i + 1..|p| - 1];
    var sep := p[|p| - 1];
    assert s[..i] == p[..i];
    assert s[i + 1..] == t + [sep] + [c];
    ShapeExtendSepWord(t, sep, c);
    DotRunAfterSep(t, sep, c);
  }

  lemma StepFromStart(c: char)
    ensures Reached(Step(Start, c), [] + [c])
  {
    assert [] + [c] == [c];
  }

  lemma StepFromLocal(p: string, c: char)
    requires DottedShape(p)
    ensures Reached(Step(Local, c), p + [c])
  {
    var s := p + [c];
    assert s[..|s| - 1] == p;
    if IsWordChar(c) {
      ShapeExtendWord(p, c);
    }
  }

  lemma StepFromLocalSep(p: string, c: char)
    requires Reached(LocalSep, p)
    ensures Reached(Step(LocalSep, c), p + [c])
  {
    if IsWordChar(c) {
      var p' := p[..|p| - 1];
      assert p == p' + [p[|p| - 1]];
      ShapeExtendSepWord(p', p[|p| - 1], c);
    }
  }

  lemma StepReached(q: State, p: string, c: char)
    requires Reached(q, p)
    ensures Reached(Step(q, c), p + [c])
  {
    match q
    case Start =>
      StepFromStart(c);
    case Local =>
      StepFromLocal(p, c);
    case LocalSep =>
      StepFromLocalSep(p, c);
    case At =>
      if IsWordChar(c) {
        StepFromAt(p, c);
      }
    case Domain(r) =>
      var i :| DomainAt(p, i, r);
      StepFromDomain(p, c, i, r);
    case DomainSep(d) =>
      var i :| DomainSepAt(p, i, d);
      if IsWordChar(c) {
        StepFromDomainSep(p, c, i, d);
      }
    case Reject =>
  }

  /** Whatever state the scanner reaches, the input read so far has the shape that state stands for. */
  lemma {:induction false} RunReached(s: string)
    ensures Reached(Run(s), s)
    decreases |s|
  {
    if s != [] {
      var p := s[..|s| - 1];
      assert s == p + [s[|s| - 1]];
      RunReached(p);
      StepReached(Run(p), p, s[|s| - 1]);
    }
  }

  lemma RunSnoc(p: string, c: char)
    ensures Run(p + [c]) == Step(Run(p), c)
  {
    assert (p + [c])[..|p|] == p;
  }

  lemma {:induction false} RunLocal(s: string)
    requires DottedShape(s)
    ensures Run(s) == Local
    decreases |s|
  {
    var p := s[..|s| - 1];
    assert s == p + [s[|s| - 1]];
    RunSnoc(p, s[|s| - 1]);
    if |s| == 1 {
      assert p == [];
    } else if IsWordChar(s[|s| - 2]) {
      ShapePrefix(s, |s| - 1);
      RunLocal(p);
    } else {
      var p' := s[..|s| - 2];
      ShapePrefix(s, |s| - 2);
      assert p == p' + [s[|s| - 2]];
      RunLocalSep(p', s[|s| - 2]);
    }
  }

  lemma {:induction false} RunLocalSep(p: string, c: char)
    requires DottedShape(p) && IsSep(c)
    ensures Run(p + [c]) == LocalSep
    decreases |p| + 1
  {
    RunSnoc(p, c);
    RunLocal(p);
  }

  lemma RunAt(l: string)
    requires DottedShape(l)
    ensures Run(l + ['@']) == At
  {
    RunSnoc(l, '@');
    RunLocal(l);
  }

  lemma {:induction false} RunDomain(l: string, t: string)
    requires DottedShape(l) && DottedShape(t)
    ensures Run(l + ['@'] + t) == Domain(DotRun(t))
    decreases |t|, 1
  {
    var c := t[|t| - 1];
    var t0 := t[..|t| - 1];
    assert t == t0 + [c];
    if |t| == 1 {
      RunDomainFirst(l, c);
    } else if IsWordChar(t[|t| - 2]) {
      RunDomainWord(l, t0, c);
    } else {
      var t' := t[..|t| - 2];
      ShapePrefix(t, |t| - 2);
      assert t0 == t' + [t[|t| - 2]];
      RunDomainAfterSep(l, t', t[|t| - 2], c);
    }
  }

  lemma RunDomainFirst(l: string, c: char)
    requires DottedShape(l) && IsWordChar(c)
    ensures Run(l + ['@'] + [c]) == Domain(DotRun([c]))
  {
    RunSnoc(l + ['@'], c);
    RunAt(l);
    assert TrailingWords([c]) == 1 by {
      assert [c][..0] == [];
    }
  }

  lemma {:induction false} RunDomainWord(l: string, t0: string, c: char)
    requires DottedShape(l) && DottedShape(t0 + [c]) && |t0| >= 1 && IsWordChar(t0[|t0| - 1])
    ensures Run(l + ['@'] + (t0 + [c])) == Domain(DotRun(t0 + [c]))
    decreases |t0| + 1, 0
  {
    var t := t0 + [c];
    assert t[..|t| - 1] == t0;
    ShapePrefix(t, |t| - 1);
    RunDomain(l, t0);
    DotRunWord(t0, c);
    assert l + ['@'] + t == (l + ['@'] + t0) + [c];
    RunSnoc(l + ['@'] + t0, c);
  }

  lemma {:induction false} RunDomainAfterSep(l: string, t: string, sep: char, c: char)
    requires DottedShape(l) && DottedShape(t) && IsSep(sep) && IsWordChar(c)
    ensures Run(l + ['@'] + (t + [sep] + [c])) == Domain(DotRun(t + [sep] + [c]))
    decreases |t| + 2, 0
  {
    RunDomainSep(l, t, sep);
    DotRunAfterSep(t, sep, c);
    assert l + ['@'] + (t + [sep] + [c]) == (l + ['@'] + t + [sep]) + [c];
    RunSnoc(l + ['@'] + t + [sep], c);
  }

  lemma {:induction false} RunDomainSep(l: string, t: string, c: char)
    requires DottedShape(l) && DottedShape(t) && IsSep(c)
    ensures Run(l + ['@'] + t + [c]) == DomainSep(c == '.')
    decreases |t| + 1, 0
  {
    RunSnoc(l + ['@'] + t, c);
    RunDomain(l, t);
  }

  /** The last group of a top-level run is a dot and two or three word characters. */
  lemma {:induction false} TldRunEnds(u: string)
    requires TldRun(u)
    ensures TrailingWords(u) < |u| && (DotRun(u) == 2 || DotRun(u) == 3)
    ensures IsWordChar(u[|u| - 1])
    decreases |u|
  {
    if |u| > 3 && TldRun(u[3..]) {
      TldRunEnds(u[3..]);
      assert u == u[..3] + u[3..];
      DotRunAppend(u[..3], u[3..]);
    } else if |u| > 4 && IsWordChar(u[3]) && TldRun(u[4..]) {
      TldRunEnds(u[4..]);
      assert u == u[..4] + u[4..];
      DotRunAppend(u[..4], u[4..]);
    } else {
      var k := TrailingWords(u);
      assert forall m :: 0 < m < |u| ==> IsWordChar(u[m]);
      assert k == |u| - 1;
    }
  }

  lemma ConcatShape(t: string, j: nat)
    requires 1 <= j < |t| && DottedShape(t[..j]) && t[j] == '.' && IsWordChar(t[|t| - 1])
    requires forall m :: j < m < |t| ==> t[m] == '.' || IsWordChar(t[m])
    requires forall m :: j < m < |t| && t[m] == '.' ==> IsWordChar(t[m - 1])
    ensures DottedShape(t)
  {
    forall m | 0 <= m < j
      ensures IsWordChar(t[m]) || IsSep(t[m])
      ensures 0 < m && IsSep(t[m]) ==> IsWordChar(t[m - 1])
    {
      assert t[m] == t[..j][m];
      if 0 < m { assert t[m - 1] == t[..j][m - 1]; }
    }
    assert t[j - 1] == t[..j][j - 1];
    assert t[0] == t[..j][0];
  }

  /** A domain split into a dotted part and a top-level run is dotted, and the scanner's count ends at 2 or 3. */
  lemma DomainShape(t: string, j: nat)
    requires 1 <= j < |t| && DottedShape(t[..j]) && TldRun(t[j..])
    ensures DottedShape(t) && (DotRun(t) == 2 || DotRun(t) == 3)
  {
    var u := t[j..];
    TldRunChars(u);
    TldRunEnds(u);
    assert t == t[..j] + u;
    DotRunAppend(t[..j], u);
    assert forall m :: j <= m < |t| ==> t[m] == u[m - j];
    ConcatShape(t, j);
  }

  /** A dotted domain whose count ends at 2 or 3 splits into a dotted part and a top-level run. */
  lemma DomainSplits(t: string)
    requires DottedShape(t) && (DotRun(t) == 2 || DotRun(t) == 3)
    ensures DomainPart(t)
  {
    var k := TrailingWords(t);
    var j := |t| - 1 - k;
    assert t[j] == '.';
    assert j >= 1;
    ShapePrefix(t, j);
    ShapeIsDotted(t[..j]);
    var u := t[j..];
    assert |u| == k + 1 && u[0] == '.';
    assert forall m :: 0 < m < |u| ==> IsWordChar(u[m]) by {
      assert forall m :: 0 < m < |u| ==> u[m] == t[j + m];
    }
    if |u| == 4 {
      assert TldRun(u);
    } else {
      assert TldRun(u);
    }
    assert Dotted(t[..j]) && TldRun(t[j..]);
  }

  lemma ScannerSound(s: string)
    requires IsEmail(s)
    ensures MatchesPattern(s)
  {
    var q := Run(s);
    RunReached(s);
    assert Reached(q, s) && q.Domain?;
    var i :| DomainAt(s, i, q.run);
    var l, t := s[..i], s[i + 1..];
    ShapeIsDotted(l);
    DomainSplits(t);
    assert s[i] == '@' && Dotted(l) && DomainPart(t);
  }

  lemma AcceptsSplit(l: string, t: string, j: nat)
    requires Dotted(l) && 1 <= j < |t| && Dotted(t[..j]) && TldRun(t[j..])
    ensures IsEmail(l + ['@'] + t)
  {
    DottedHasShape(l);
    DottedHasShape(t[..j]);
    DomainShape(t, j);
    RunDomain(l, t);
  }

  /** The scanner accepts a string split at its `@` into a dotted local part and a domain part. */
  lemma AcceptsAt(s: string, i: nat)
    requires i < |s| && s[i] == '@' && Dotted(s[..i]) && DomainPart(s[i + 1..])
    ensures IsEmail(s)
  {
    var l, t := s[..i], s[i + 1..];
    var j :| 1 <= j < |t| && Dotted(t[..j]) && TldRun(t[j..]);
    AcceptsSplit(l, t, j);
    assert s == l + ['@'] + t;
  }

  lemma ScannerComplete(s: string)
    requires MatchesPattern(s)
    ensures IsEmail(s)
  {
    var i :| 0 <= i < |s| && s[i] == '@' && Dotted(s[..i]) && DomainPart(s[i + 1..]);
    AcceptsAt(s, i);
  }

  /** The scanner and the grammar agree on every string. */
  lemma EmailIffPattern(s: string)
    ensures IsEmail(s) <==> MatchesPattern(s)
  {
    if IsEmail(s) { ScannerSound(s); }
    if MatchesPattern(s) { ScannerComplete(s); }
  }

  // ---------------------------------------------------------------------
  // Consequences of the pattern.
  // ---------------------------------------------------------------------

  /** The characters the strict pattern is built from are all allowed by the loose one. */
  lemma WordOrSepIsPlain(c: char)
    requires IsWordChar(c) || IsSep(c)
    ensures IsPlain(c)
  {
  }

  /** The characters of an address whose `@` is at `i` and whose domain part `t` splits at `j`. */
  lemma EmailChars(s: string, i: nat, t: string, j: nat)
    requires i < |s| && t == s[i + 1..] && 1 <= j < |t|
    requires DottedShape(s[..i]) && DottedShape(t[..j])
    requires t[j] == '.'
    requires forall m :: 0 <= m < |t| - j ==> t[j..][m] == '.' || IsWordChar(t[j..][m])
    requires forall m :: 0 < m < |t| - j && t[j..][m] == '.' ==> IsWordChar(t[j..][m - 1])
    ensures forall m :: 0 <= m < |s| && m != i ==> IsWordChar(s[m]) || IsSep(s[m])
    ensures forall m :: 0 < m < |s| && IsSep(s[m]) ==> IsWordChar(s[m - 1])
  {
    forall m | 0 <= m < |s| && m != i
      ensures IsWordChar(s[m]) || IsSep(s[m])
      ensures 0 < m && IsSep(s[m]) ==> IsWordChar(s[m - 1])
    {
      if m < i {
        assert s[m] == s[..i][m];
        if 0 < m { assert s[m - 1] == s[..i][m - 1]; }
      } else if m == i + 1 {
        assert s[m] == t[..j][0];
      } else if m < i + 1 + j {
        assert s[m] == t[..j][m - i - 1];
        assert s[m - 1] == t[..j][m - i - 2];
      } else if m == i + 1 + j {
        assert s[m - 1] == t[..j][j - 1];
      } else {
        assert s[m] == t[j..][m - i - 1 - j];
        assert s[m - 1] == t[j..][m - i - 2 - j];
      }
    }
  }

  /**
   * An accepted address has exactly one `@`, with something before it; after it, a
   * `.` with characters on both sides; every other character is `\w`, `.` or `-`;
   * and every separator follows a word character.
   */
  lemma EmailShape(s: string)
    requires IsEmail(s)
    ensures exists i, k :: (0 < i && i + 1 < k < |s| - 1 && s[i] == '@' && s[k] == '.' &&
      (forall m :: 0 <= m < |s| && m != i ==> IsWordChar(s[m]) || IsSep(s[m])))
    ensures forall m :: 0 < m < |s| && IsSep(s[m]) ==> IsWordChar(s[m - 1])
  {
    EmailIffPattern(s);
    var i :| 0 <= i < |s| && s[i] == '@' && Dotted(s[..i]) && DomainPart(s[i + 1..]);
    var t := s[i + 1..];
    var j :| 1 <= j < |t| && Dotted(t[..j]) && TldRun(t[j..]);
    DottedHasShape(s[..i]);
    DottedHasShape(t[..j]);
    TldRunChars(t[j..]);
    EmailChars(s, i, t, j);
    var k := i + 1 + j;
    assert s[k] == t[j..][0];
  }

  /** Every address the schema accepts also passes the TypeScript login page's looser check. */
  lemma StrictImpliesLoose(s: string)
    requires IsEmail(s)
    ensures IsLooseEmail(s)
  {
    EmailShape(s);
    var i, k :| 0 < i && i + 1 < k < |s| - 1 && s[i] == '@' && s[k] == '.' &&
      (forall m :: 0 <= m < |s| && m != i ==> IsWordChar(s[m]) || IsSep(s[m]));
    forall m | 0 <= m < |s| && m != i
      ensures IsPlain(s[m])
    {
      WordOrSepIsPlain(s[m]);
    }
  }

  /** The looser check lets through addresses the schema refuses: a one-letter top-level domain. */
  lemma LooseAcceptsMore()
    ensures IsLooseEmail("a@b.c") && !IsEmail("a@b.c")
  {
    var s := "a@b.c";
    EmailIffPattern(s);
    assert s[1] == '@' && s[3] == '.';
    assert forall m :: 0 <= m < |s| && m != 1 ==> IsPlain(s[m]);
    forall i | 0 <= i < |s| && s[i] == '@'
      ensures !DomainPart(s[i + 1..])
    {
      var t := s[i + 1..];
      assert t == "b.c";
      forall j | 1 <= j < |t|
        ensures !(Dotted(t[..j]) && TldRun(t[j..]))
      {
        if j == 2 {
          DottedIffShape(t[..j]);
          assert t[..j][1] == '.';
        }
      }
    }
  }

  /** A typical address is accepted. */
  lemma AcceptsPlainAddress()
    ensures IsEmail("a@x.com")
  {
    var s := "a@x.com";
    assert s[..1] == "a" && Dotted("a");
    var t := s[2..];
    assert t[..1] == "x" && Dotted("x");
    assert t[1..] == ".com" && TldRun(".com") by {
      assert ".com"[4..] == [];
    }
    assert DomainPart(t);
    EmailIffPattern(s);
  }

  /** Two separators in a row, anywhere, make an address invalid. */
  lemma RefusesAdjacentSeparators(s: string, p: nat)
    requires p + 1 < |s| && IsSep(s[p]) && IsSep(s[p + 1])
    ensures !IsEmail(s)
  {
    if IsEmail(s) {
      EmailShape(s);
      assert false;
    }
  }

  /** The phone pattern allows at most one leading `+`, then ten to fifteen digits. */
  lemma PhoneShape(s: string)
    requires IsPhone(s)
    ensures 10 <= |s| <= 16
    ensures forall i :: 0 < i < |s| ==> IsDigit(s[i])
    ensures s[0] == '+' || IsDigit(s[0])
  {
    if s[0] == '+' {
      assert forall i :: 0 < i < |s| ==> s[i] == s[1..][i - 1];
    }
  }
}
