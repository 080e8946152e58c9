/**
 The fragment of Python's `re` that the pipeline's substitutions use, and
 `re.sub` over it.

 Every pattern in src/parser.py is built from literal characters, optional
 characters (`\.?`), whitespace runs (`\s*`), word boundaries (`\b`) and a
 top-level alternation (`(AND|&)`). `Match` explores choices in the order
 Python's backtracking engine does, so it finds the same match. Literal
 letters are compared case-insensitively (the patterns with letters are all
 compiled with IGNORECASE), and pattern letters are written upper-case.
 */
module Patterns {
  import opened Outcomes
  import opened Text

  datatype Elem =
    | Lit(c: char)   // one character, compared after upper-casing the input
    | Opt(c: char)   // `c?`, greedy
    | Spaces         // `\s*`, greedy
    | Boundary       // `\b`

  /** Alternatives, tried in order; `(A|B)` between two `\b` becomes `[\b A \b, \b B \b]`. */
  type Pattern = seq<seq<Elem>>

  /** `\b` holds between the previous character and the first character of `s`. */
  predicate AtBoundary(prevWord: bool, s: string) {
    prevWord != (|s| > 0 && IsWordChar(s[0]))
  }

  /** Length of the leading whitespace run. */
  function SpaceLen(s: string): (n: nat)
    ensures n <= |s|
    ensures forall i :: 0 <= i < n ==> IsSpace(s[i])
    ensures n == |s| || !IsSpace(s[n])
  {
    if |s| == 0 || !IsSpace(s[0]) then 0 else 1 + SpaceLen(s[1..])
  }

  function Shift(k: nat, m: Option<nat>): Option<nat> {
    match m
    case Some(n) => Some(k + n)
    case None => None
  }

  /**
   The length of the match of `es` at the start of `s`, if any. `prevWord`
   says whether the character just before `s` is a word character.
   */
  function Match(es: seq<Elem>, s: string, prevWord: bool): (m: Option<nat>)
    ensures m.Some? ==> m.value <= |s|
    decreases |es|, 1, 0
  {
    if |es| == 0 then Some(0)
    else match es[0]
      case Boundary =>
        if AtBoundary(prevWord, s) then Match(es[1..], s, prevWord) else None
      case Lit(c) =>
        if |s| > 0 && UpperChar(s[0]) == c
        then Shift(1, Match(es[1..], s[1..], IsWordChar(s[0])))
        else None
      case Opt(c) =>
        var taken :=
          if |s| > 0 && UpperChar(s[0]) == c
          then Shift(1, Match(es[1..], s[1..], IsWordChar(s[0])))
          else None;
        if taken.Some? then taken else Match(es[1..], s, prevWord)
      case Spaces =>
        MatchAfterSpaces(es[1..], s, prevWord, SpaceLen(s))
  }

  /** `\s*` followed by `rest`: try `k` leading spaces, then fewer. */
  function MatchAfterSpaces(rest: seq<Elem>, s: string, prevWord: bool, k: nat): (m: Option<nat>)
    requires k <= |s|
    ensures m.Some? ==> m.value <= |s|
    decreases |rest| + 1, 0, k
  {
    var attempt := Shift(k, Match(rest, s[k..], if k > 0 then false else prevWord));
    if attempt.Some? then attempt
    else if k == 0 then None
    else MatchAfterSpaces(rest, s, prevWord, k - 1)
  }

  /** The first alternative that matches at the start of `s`. */
  function MatchAny(p: Pattern, s: string, prevWord: bool): (m: Option<nat>)
    ensures m.Some? ==> m.value <= |s|
  {
    if |p| == 0 then None
    else
      var m := Match(p[0], s, prevWord);
      if m.Some? then m else MatchAny(p[1..], s, prevWord)
  }

  predicate HasLit(es: seq<Elem>) {
    exists i :: 0 <= i < |es| && es[i].Lit?
  }

  /** Every alternative needs at least one character: the pattern never matches the empty string. */
  predicate Consuming(p: Pattern) {
    forall k :: 0 <= k < |p| ==> HasLit(p[k])
  }

  lemma {:induction false} MatchConsumes(es: seq<Elem>, s: string, prevWord: bool)
    requires HasLit(es)
    requires Match(es, s, prevWord).Some?
    ensures Match(es, s, prevWord).value > 0
    decreases |es|, 1, 0
  {
    var i :| 0 <= i < |es| && es[i].Lit?;
    if i > 0 {
      assert es[1..][i - 1] == es[i];
      match es[0]
      case Boundary =>
        MatchConsumes(es[1..], s, prevWord);
      case Lit(c) =>
      case Opt(c) =>
        if !(|s| > 0 && UpperChar(s[0]) == c && Match(es[1..], s[1..], IsWordChar(s[0])).Some?) {
          MatchConsumes(es[1..], s, prevWord);
        }
      case Spaces =>
        AfterSpacesConsumes(es[1..], s, prevWord, SpaceLen(s));
    }
  }

  lemma {:induction false} AfterSpacesConsumes(rest: seq<Elem>, s: string, prevWord: bool, k: nat)
    requires k <= |s|
    requires HasLit(rest)
    requires MatchAfterSpaces(rest, s, prevWord, k).Some?
    ensures MatchAfterSpaces(rest, s, prevWord, k).value > 0
    decreases |rest| + 1, 0, k
  {
    var pw := if k > 0 then false else prevWord;
    if Match(rest, s[k..], pw).Some? {
      MatchConsumes(rest, s[k..], pw);
    } else {
      AfterSpacesConsumes(rest, s, prevWord, k - 1);
    }
  }

  lemma {:induction false} MatchAnyConsumes(p: Pattern, s: string, prevWord: bool)
    requires Consuming(p)
    requires MatchAny(p, s, prevWord).Some?
    ensures MatchAny(p, s, prevWord).value > 0
    decreases |p|
  {
    if Match(p[0], s, prevWord).Some? {
      MatchConsumes(p[0], s, prevWord);
    } else {
      assert Consuming(p[1..]) by {
        forall k | 0 <= k < |p[1..]| ensures HasLit(p[1..][k]) {
          assert p[1..][k] == p[k + 1];
        }
      }
      MatchAnyConsumes(p[1..], s, prevWord);
    }
  }

  /**
   `re.sub(p, repl, s)` from the current position on: at each position the
   first match found is replaced and scanning resumes after it; otherwise one
   character is copied. Word boundaries look at the original string.
   */
  function SubFrom(p: Pattern, repl: string, s: string, prevWord: bool): string
    requires Consuming(p)
    decreases |s|
  {
    if |s| == 0 then ""
    else
      var m := MatchAny(p, s, prevWord);
      if m.Some? then
        MatchAnyConsumes(p, s, prevWord);
        repl + SubFrom(p, repl, s[m.value..], IsWordChar(s[m.value - 1]))
      else
        [s[0]] + SubFrom(p, repl, s[1..], IsWordChar(s[0]))
  }

  function Sub(p: Pattern, repl: string, s: string): string
    requires Consuming(p)
  {
    SubFrom(p, repl, s, false)
  }

  /** Substituting a replacement without lower-case letters into such a string leaves none. */
  lemma {:induction false} SubFromNoLower(p: Pattern, repl: string, s: string, prevWord: bool)
    requires Consuming(p)
    requires NoLower(repl) && NoLower(s)
    ensures NoLower(SubFrom(p, repl, s, prevWord))
    decreases |s|
  {
    if |s| > 0 {
      var m := MatchAny(p, s, prevWord);
      if m.Some? {
        MatchAnyConsumes(p, s, prevWord);
        SubFromNoLower(p, repl, s[m.value..], IsWordChar(s[m.value - 1]));
      } else {
        SubFromNoLower(p, repl, s[1..], IsWordChar(s[0]));
      }
    }
  }

  // ---------------------------------------------------------------------------
  // One element at a time
  // ---------------------------------------------------------------------------

  /** A whitespace run followed by a non-space is exactly the leading whitespace. */
  lemma {:induction false} SpaceLenPrefix(sp: string, x: string)
    requires AllSpace(sp)
    requires |x| > 0 && !IsSpace(x[0])
    ensures SpaceLen(sp + x) == |sp|
    decreases |sp|
  {
    if |sp| == 0 {
      assert sp + x == x;
    } else {
      assert (sp + x)[0] == sp[0];
      assert (sp + x)[1..] == sp[1..] + x;
      SpaceLenPrefix(sp[1..], x);
    }
  }

  lemma BoundaryStep(rest: seq<Elem>, s: string, prevWord: bool)
    ensures Match([Boundary] + rest, s, prevWord) ==
      if AtBoundary(prevWord, s) then Match(rest, s, prevWord) else None
  {
    var es := [Boundary] + rest;
    assert es[0] == Boundary;
    assert es[1..] == rest;
  }

  /** `c?` takes the character when it is there and the rest then matches, and skips it otherwise. */
  lemma OptStep(c: char, rest: seq<Elem>, s: string, prevWord: bool)
    ensures Match([Opt(c)] + rest, s, prevWord) ==
      var taken :=
        if |s| > 0 && UpperChar(s[0]) == c then Shift(1, Match(rest, s[1..], IsWordChar(s[0]))) else None;
      if taken.Some? then taken else Match(rest, s, prevWord)
  {
    var es := [Opt(c)] + rest;
    assert es[0] == Opt(c);
    assert es[1..] == rest;
  }

  /** `\s*` is greedy: when the rest matches after the whole whitespace run, that is the match. */
  lemma SpacesStep(rest: seq<Elem>, s: string, prevWord: bool)
    requires Match(rest, s[SpaceLen(s)..], if SpaceLen(s) > 0 then false else prevWord).Some?
    ensures Match([Spaces] + rest, s, prevWord) ==
      Shift(SpaceLen(s), Match(rest, s[SpaceLen(s)..], if SpaceLen(s) > 0 then false else prevWord))
  {
    var es := [Spaces] + rest;
    assert es[0] == Spaces;
    assert es[1..] == rest;
  }

  /** `c?` takes a present `c`. */
  lemma OptTaken(c: char, rest: seq<Elem>, x: string, prevWord: bool)
    requires UpperChar(c) == c && Match(rest, x, IsWordChar(c)).Some?
    ensures Match([Opt(c)] + rest, [c] + x, prevWord) == Shift(1, Match(rest, x, IsWordChar(c)))
  {
    OptStep(c, rest, [c] + x, prevWord);
    assert ([c] + x)[1..] == x;
  }

  /** `c?` matches the empty string where `c` is absent. */
  lemma OptSkipped(c: char, rest: seq<Elem>, s: string, prevWord: bool)
    requires |s| == 0 || UpperChar(s[0]) != c
    ensures Match([Opt(c)] + rest, s, prevWord) == Match(rest, s, prevWord)
  {
    OptStep(c, rest, s, prevWord);
  }

  /** A run of literals matches the same text, then `rest` takes over after a word character. */
  lemma MatchLitsThen(w: string, rest: seq<Elem>, x: string, prevWord: bool, n: nat)
    requires |w| > 0 && NoLower(w) && IsWordChar(w[|w| - 1])
    requires Match(rest, x, true) == Some(n)
    ensures Match(Lits(w) + rest, w + x, prevWord) == Some(|w| + n)
  {
    LitsMatch(w, rest, w + x, prevWord);
    assert (w + x)[..|w|] == w;
    assert (w + x)[|w|..] == x;
    UpperOfNoLower(w);
  }

  /** `\s*` takes a whole gap when `rest` matches after it whatever precedes it. */
  lemma MatchGapThen(gap: string, rest: seq<Elem>, y: string, prevWord: bool, n: nat)
    requires AllSpace(gap) && |y| > 0 && !IsSpace(y[0])
    requires Match(rest, y, false) == Some(n) && Match(rest, y, prevWord) == Some(n)
    ensures Match([Spaces] + rest, gap + y, prevWord) == Some(|gap| + n)
  {
    SpaceLenPrefix(gap, y);
    assert (gap + y)[|gap|..] == y;
    SpacesStep(rest, gap + y, prevWord);
  }

  /** Two words with whitespace between them, as in `POST\s*OFFICE`, followed by `rest`. */
  lemma MatchWordsThen(w1: string, gap: string, w2: string, rest: seq<Elem>, y: string, prevWord: bool, n: nat)
    requires |w1| > 0 && NoLower(w1) && IsWordChar(w1[|w1| - 1])
    requires |w2| > 0 && NoLower(w2) && IsWordChar(w2[|w2| - 1]) && !IsSpace(w2[0])
    requires AllSpace(gap) && Match(rest, y, true) == Some(n)
    ensures Match(Lits(w1) + ([Spaces] + (Lits(w2) + rest)), w1 + (gap + (w2 + y)), prevWord)
      == Some(|w1| + (|gap| + (|w2| + n)))
  {
    assert Match(Lits(w2) + rest, w2 + y, false) == Some(|w2| + n) by {
      MatchLitsThen(w2, rest, y, false, n);
    }
    assert Match(Lits(w2) + rest, w2 + y, true) == Some(|w2| + n) by {
      MatchLitsThen(w2, rest, y, true, n);
    }
    assert Match([Spaces] + (Lits(w2) + rest), gap + (w2 + y), true) == Some(|gap| + (|w2| + n)) by {
      assert (w2 + y)[0] == w2[0];
      MatchGapThen(gap, Lits(w2) + rest, w2 + y, true, |w2| + n);
    }
    MatchLitsThen(w1, [Spaces] + (Lits(w2) + rest), gap + (w2 + y), prevWord, |gap| + (|w2| + n));
  }

  /** A literal that is not there stops the match. */
  lemma LitMisses(c: char, rest: seq<Elem>, s: string, prevWord: bool)
    requires |s| == 0 || UpperChar(s[0]) != c
    ensures Match([Lit(c)] + rest, s, prevWord) == None
  {
    LitStep(c, rest, s, prevWord);
  }

  /** A literal that is there passes a failure of `rest` on. */
  lemma LitThenMisses(c: char, rest: seq<Elem>, y: string, prevWord: bool)
    requires UpperChar(c) == c && Match(rest, y, IsWordChar(c)) == None
    ensures Match([Lit(c)] + rest, [c] + y, prevWord) == None
  {
    LitStep(c, rest, [c] + y, prevWord);
    assert ([c] + y)[1..] == y;
  }

  /** With no whitespace ahead, `\s*` matches the empty string. */
  lemma SpacesNoGap(rest: seq<Elem>, s: string, prevWord: bool)
    requires SpaceLen(s) == 0
    ensures Match([Spaces] + rest, s, prevWord) == Match(rest, s, prevWord)
  {
    var es := [Spaces] + rest;
    assert es[0] == Spaces;
    assert es[1..] == rest;
    assert s[0..] == s;
  }

  /** Every alternative opens with `\b` and the literal `c`. */
  predicate OpensWith(p: Pattern, c: char) {
    forall k :: 0 <= k < |p| ==> |p[k]| >= 2 && p[k][0] == Boundary && p[k][1] == Lit(c)
  }

  /** Text without the character `c` (in either case). */
  predicate Avoids(s: string, c: char) {
    forall i :: 0 <= i < |s| ==> UpperChar(s[i]) != c
  }

  /** A pattern that opens with `c` cannot match where `c` is not the next character. */
  lemma {:induction false} NoMatchWithoutOpening(p: Pattern, c: char, s: string, prevWord: bool)
    requires OpensWith(p, c)
    requires |s| == 0 || UpperChar(s[0]) != c
    ensures MatchAny(p, s, prevWord) == None
    decreases |p|
  {
    if |p| > 0 {
      var es := p[0];
      assert es == [Boundary] + es[1..];
      assert es[1..] == [Lit(c)] + es[2..];
      BoundaryStep(es[1..], s, prevWord);
      LitStep(c, es[2..], s, prevWord);
      assert OpensWith(p[1..], c) by {
        forall k | 0 <= k < |p[1..]| ensures |p[1..][k]| >= 2 && p[1..][k][0] == Boundary && p[1..][k][1] == Lit(c) {
          assert p[1..][k] == p[k + 1];
        }
      }
      NoMatchWithoutOpening(p[1..], c, s, prevWord);
    }
  }

  /** Text that avoids the opening character is copied unchanged, and substitution resumes after it. */
  lemma {:induction false} SubFromAvoiding(p: Pattern, c: char, repl: string, a: string, x: string, prevWord: bool)
    requires Consuming(p) && OpensWith(p, c)
    requires Avoids(a, c)
    ensures SubFrom(p, repl, a + x, prevWord) ==
      a + SubFrom(p, repl, x, if |a| == 0 then prevWord else IsWordChar(a[|a| - 1]))
    decreases |a|
  {
    if |a| == 0 {
      assert a + x == x;
    } else {
      var s := a + x;
      assert s[0] == a[0];
      NoMatchWithoutOpening(p, c, s, prevWord);
      SubFromSkip(p, repl, s, prevWord);
      assert s[1..] == a[1..] + x;
      SubFromAvoiding(p, c, repl, a[1..], x, IsWordChar(a[0]));
      assert |a| > 1 ==> a[1..][|a[1..]| - 1] == a[|a| - 1];
      assert a == [a[0]] + a[1..];
    }
  }

  /** The character before `s` is not a word character (or there is none). */
  predicate EndsOutsideWord(a: string) {
    |a| == 0 || !IsWordChar(a[|a| - 1])
  }

  /** The character after the end of a match is not a word character (or there is none). */
  predicate StartsOutsideWord(t: string) {
    |t| == 0 || !IsWordChar(t[0])
  }

  /**
   One occurrence `w`, between text that avoids the opening character, is the
   only thing `re.sub` replaces.
   */
  lemma SubReplacesOne(p: Pattern, c: char, repl: string, a: string, w: string, t: string)
    requires Consuming(p) && OpensWith(p, c)
    requires Avoids(a, c) && Avoids(t, c) && EndsOutsideWord(a)
    requires |w| > 0 && MatchAny(p, w + t, false) == Some(|w|)
    ensures Sub(p, repl, a + w + t) == a + repl + t
  {
    assert a + w + t == a + (w + t);
    SubAfterPrefix(p, c, repl, a, w + t);
    SubAtMatchThenAvoid(p, c, repl, w, t);
  }

  /** Text before `s` that avoids the opening character is copied, and `s` is then substituted as if it stood alone. */
  lemma SubAfterPrefix(p: Pattern, c: char, repl: string, a: string, s: string)
    requires Consuming(p) && OpensWith(p, c)
    requires Avoids(a, c) && EndsOutsideWord(a)
    ensures Sub(p, repl, a + s) == a + Sub(p, repl, s)
  {
    SubFromAvoiding(p, c, repl, a, s, false);
  }

  lemma SubAtMatchThenAvoid(p: Pattern, c: char, repl: string, w: string, t: string)
    requires Consuming(p) && OpensWith(p, c) && Avoids(t, c)
    requires |w| > 0 && MatchAny(p, w + t, false) == Some(|w|)
    ensures SubFrom(p, repl, w + t, false) == repl + t
  {
    SubFromAtMatch(p, repl, w + t, false, |w|);
    assert (w + t)[|w|..] == t;
    SubAvoidingFrom(p, c, repl, t, IsWordChar(w[|w| - 1]));
  }

  lemma SubAvoidingFrom(p: Pattern, c: char, repl: string, s: string, prevWord: bool)
    requires Consuming(p) && OpensWith(p, c) && Avoids(s, c)
    ensures SubFrom(p, repl, s, prevWord) == s
  {
    SubFromAvoiding(p, c, repl, s, "", prevWord);
    assert s + "" == s;
  }

  /** Where `p` does not match at `w` and nothing after its first character can open a match, nothing changes. */
  lemma SubKeepsOne(p: Pattern, c: char, repl: string, a: string, w: string, t: string)
    requires Consuming(p) && OpensWith(p, c)
    requires Avoids(a, c) && Avoids(t, c) && EndsOutsideWord(a)
    requires |w| > 0 && Avoids(w[1..], c) && MatchAny(p, w + t, false) == None
    ensures Sub(p, repl, a + w + t) == a + w + t
  {
    assert a + w + t == a + (w + t);
    SubAfterPrefix(p, c, repl, a, w + t);
    SubSkipThenAvoid(p, c, repl, w, t);
  }

  lemma SubSkipThenAvoid(p: Pattern, c: char, repl: string, w: string, t: string)
    requires Consuming(p) && OpensWith(p, c) && Avoids(t, c)
    requires |w| > 0 && Avoids(w[1..], c) && MatchAny(p, w + t, false) == None
    ensures SubFrom(p, repl, w + t, false) == w + t
  {
    SubFromSkip(p, repl, w + t, false);
    var u := w[1..] + t;
    assert (w + t)[1..] == u;
    assert Avoids(u, c);
    SubAvoidingFrom(p, c, repl, u, IsWordChar(w[0]));
    assert w + t == [w[0]] + u;
  }

  lemma AvoidsJoin(x: string, y: string, c: char)
    requires Avoids(x, c) && Avoids(y, c)
    ensures Avoids(x + y, c)
  {
    forall i | 0 <= i < |x + y|
      ensures UpperChar((x + y)[i]) != c
    {
      if i < |x| {
        assert (x + y)[i] == x[i];
      } else {
        assert (x + y)[i] == y[i - |x|];
      }
    }
  }

  lemma SpacesAvoid(gap: string, c: char)
    requires AllSpace(gap) && !IsSpace(c)
    ensures Avoids(gap, c)
  {
    forall i | 0 <= i < |gap|
      ensures UpperChar(gap[i]) != c
    {
      assert IsSpace(UpperChar(gap[i]));
    }
  }

  /** Text that avoids the opening character of every alternative is left as it is. */
  lemma SubAvoiding(p: Pattern, c: char, repl: string, s: string)
    requires Consuming(p) && OpensWith(p, c) && Avoids(s, c)
    ensures Sub(p, repl, s) == s
  {
    SubFromAvoiding(p, c, repl, s, "", false);
    assert s + "" == s;
  }

  /** Where an alternative matches, `re.sub` writes the replacement and resumes after the match. */
  lemma SubFromAtMatch(p: Pattern, repl: string, s: string, prevWord: bool, n: nat)
    requires Consuming(p)
    requires 0 < n <= |s| && MatchAny(p, s, prevWord) == Some(n)
    ensures SubFrom(p, repl, s, prevWord) == repl + SubFrom(p, repl, s[n..], IsWordChar(s[n - 1]))
  {
  }

  // ---------------------------------------------------------------------------
  // Whole-word patterns `\bWORD\b`
  // ---------------------------------------------------------------------------

  /** An upper-case word made of regex word characters. */
  predicate IsUpperWord(w: string) {
    |w| > 0 && forall i :: 0 <= i < |w| ==> IsWordChar(w[i]) && !IsLower(w[i])
  }

  function Lits(w: string): (es: seq<Elem>)
    ensures |es| == |w|
    ensures forall i :: 0 <= i < |w| ==> es[i] == Lit(w[i])
  {
    seq(|w|, i requires 0 <= i < |w| => Lit(w[i]))
  }

  /** `\bWORD\b`. */
  function WordPattern(w: string): (p: Pattern)
    requires |w| > 0
    ensures Consuming(p)
  {
    var es := [Boundary] + Lits(w) + [Boundary];
    assert es[1].Lit?;
    [es]
  }

  /** Length of the leading run of word characters. */
  function WordRunLen(s: string): (n: nat)
    ensures n <= |s|
    ensures forall i :: 0 <= i < n ==> IsWordChar(s[i])
    ensures n == |s| || !IsWordChar(s[n])
  {
    if |s| == 0 || !IsWordChar(s[0]) then 0 else 1 + WordRunLen(s[1..])
  }

  /**
   Reference definition: every maximal run of word characters that equals `w`
   (ignoring case) is replaced by `repl`; everything else is kept.
   */
  function ReplaceWordRuns(s: string, w: string, repl: string): string
    decreases |s|
  {
    if |s| == 0 then ""
    else if IsWordChar(s[0]) then
      var n := WordRunLen(s);
      (if Upper(s[..n]) == w then repl else s[..n]) + ReplaceWordRuns(s[n..], w, repl)
    else [s[0]] + ReplaceWordRuns(s[1..], w, repl)
  }

  /** One literal: the next character must equal it up to case. */
  lemma LitStep(c: char, rest: seq<Elem>, s: string, prevWord: bool)
    ensures Match([Lit(c)] + rest, s, prevWord) ==
      if |s| > 0 && UpperChar(s[0]) == c then Shift(1, Match(rest, s[1..], IsWordChar(s[0]))) else None
  {
    var es := [Lit(c)] + rest;
    assert es[0] == Lit(c);
    assert es[1..] == rest;
  }

  lemma ShiftShift(j: nat, k: nat, m: Option<nat>)
    ensures Shift(j, Shift(k, m)) == Shift(j + k, m)
  {
  }

  /** Comparing a prefix with `w` after its first character is known to agree. */
  lemma UpperPrefixStep(w: string, s: string)
    requires 1 < |w| <= |s| && UpperChar(s[0]) == w[0]
    ensures (Upper(s[..|w|]) == w) == (Upper(s[1..][..|w| - 1]) == w[1..])
    ensures s[1..][|w| - 1..] == s[|w|..]
    ensures s[1..][|w| - 2] == s[|w| - 1]
  {
    assert Upper(s[..|w|]) == [UpperChar(s[0])] + Upper(s[1..][..|w| - 1]);
    assert w == [w[0]] + w[1..];
    SameHeadEquality(w[0], Upper(s[1..][..|w| - 1]), w[1..]);
  }

  /** A run of literals matches exactly when the next |w| characters equal `w` up to case. */
  lemma {:induction false} LitsMatch(w: string, tail: seq<Elem>, s: string, prevWord: bool)
    requires |w| > 0
    ensures Match(Lits(w) + tail, s, prevWord) ==
      if |s| >= |w| && Upper(s[..|w|]) == w
      then Shift(|w|, Match(tail, s[|w|..], IsWordChar(s[|w| - 1])))
      else None
    decreases |w|
  {
    var rest := Lits(w[1..]) + tail;
    assert Match(Lits(w) + tail, s, prevWord) ==
      if |s| > 0 && UpperChar(s[0]) == w[0] then Shift(1, Match(rest, s[1..], IsWordChar(s[0]))) else None
    by {
      assert Lits(w) + tail == [Lit(w[0])] + rest;
      LitStep(w[0], rest, s, prevWord);
    }
    if |s| > 0 && UpperChar(s[0]) == w[0] {
      if |w| == 1 {
        assert rest == tail;
        assert Upper(s[..1]) == [UpperChar(s[0])];
      } else {
        LitsMatch(w[1..], tail, s[1..], IsWordChar(s[0]));
        if |s| >= |w| {
          UpperPrefixStep(w, s);
          ShiftShift(1, |w| - 1, Match(tail, s[|w|..], IsWordChar(s[|w| - 1])));
        }
      }
    } else if |s| >= |w| {
      assert Upper(s[..|w|])[0] == UpperChar(s[0]);
    }
  }

  lemma SameHeadEquality(c: char, a: string, b: string)
    ensures [c] + a == [c] + b <==> a == b
  {
    if [c] + a == [c] + b {
      assert a == ([c] + a)[1..];
    }
  }

  /** The three steps of `\bWORD\b`: the boundary, the letters, the closing boundary. */
  lemma WordPatternMatch(w: string, s: string, prevWord: bool)
    requires IsUpperWord(w)
    ensures MatchAny(WordPattern(w), s, prevWord) ==
      if AtBoundary(prevWord, s) then Match(Lits(w) + [Boundary], s, prevWord) else None
  {
    var es := [Boundary] + Lits(w) + [Boundary];
    assert WordPattern(w) == [es];
    assert es[0] == Boundary;
    assert es[1..] == Lits(w) + [Boundary];
    assert MatchAny([es], s, prevWord) == Match(es, s, prevWord);
  }

  /** At the start of a word run, `\bWORD\b` matches exactly when the whole run is WORD. */
  lemma WordMatchAtRunStart(w: string, s: string)
    requires IsUpperWord(w)
    requires |s| > 0 && IsWordChar(s[0])
    ensures MatchAny(WordPattern(w), s, false) ==
      if Upper(s[..WordRunLen(s)]) == w then Some(|w|) else None
  {
    WordPatternMatch(w, s, false);
    LitsMatch(w, [Boundary], s, false);
    var n := WordRunLen(s);
    if |s| >= |w| && Upper(s[..|w|]) == w {
      forall i | 0 <= i < |w| ensures IsWordChar(s[i]) {
        assert UpperChar(s[i]) == Upper(s[..|w|])[i];
      }
      assert n >= |w|;
      if n == |w| {
        assert Match([Boundary], s[|w|..], true) == Some(0);
      } else {
        assert s[|w|..][0] == s[|w|];
        assert Match([Boundary], s[|w|..], true) == None;
        assert |Upper(s[..n])| != |w|;
      }
    }
  }

  /** After a word character, a word character is copied and the engine moves on. */
  lemma SubStepInsideRun(w: string, repl: string, s: string)
    requires IsUpperWord(w)
    requires |s| > 0 && IsWordChar(s[0])
    ensures SubFrom(WordPattern(w), repl, s, true) == [s[0]] + SubFrom(WordPattern(w), repl, s[1..], true)
  {
    WordPatternMatch(w, s, true);
  }

  /** Inside a word run `\b` fails, so the engine copies the rest of the run. */
  lemma {:induction false} SubInsideRun(w: string, repl: string, s: string, k: nat)
    requires IsUpperWord(w)
    requires k <= |s|
    requires forall i :: 0 <= i < k ==> IsWordChar(s[i])
    ensures SubFrom(WordPattern(w), repl, s, true) ==
      s[..k] + SubFrom(WordPattern(w), repl, s[k..], true)
    decreases k
  {
    var p := WordPattern(w);
    if k > 0 {
      SubStepInsideRun(w, repl, s);
      SubInsideRun(w, repl, s[1..], k - 1);
      assert s[1..][k - 1..] == s[k..];
      CopyPrefix(s, k, SubFrom(p, repl, s, true), SubFrom(p, repl, s[1..], true), SubFrom(p, repl, s[k..], true));
    } else {
      assert s[0..] == s;
    }
  }

  /** Copying the first character and then the next `k - 1` copies the first `k`. */
  lemma CopyPrefix(s: string, k: nat, whole: string, tail: string, rest: string)
    requires 0 < k <= |s|
    requires whole == [s[0]] + tail
    requires tail == s[1..][..k - 1] + rest
    ensures whole == s[..k] + rest
  {
    assert s[..k] == [s[0]] + s[1..][..k - 1];
  }

  /** Away from word characters `\bWORD\b` cannot match. */
  lemma WordNoMatchAtNonWord(w: string, s: string, prevWord: bool)
    requires IsUpperWord(w)
    requires |s| > 0 && !IsWordChar(s[0])
    ensures MatchAny(WordPattern(w), s, prevWord) == None
  {
    WordPatternMatch(w, s, prevWord);
    LitsMatch(w, [Boundary], s, prevWord);
    if |s| >= |w| {
      assert Upper(s[..|w|])[0] == UpperChar(s[0]);
    }
  }

  /** Where no alternative matches, `re.sub` copies one character and moves on. */
  lemma SubFromSkip(p: Pattern, repl: string, s: string, prevWord: bool)
    requires Consuming(p)
    requires |s| > 0 && MatchAny(p, s, prevWord) == None
    ensures SubFrom(p, repl, s, prevWord) == [s[0]] + SubFrom(p, repl, s[1..], IsWordChar(s[0]))
  {
  }

  /** At a non-word character the substitution copies it. */
  lemma WordSubSkipsNonWord(w: string, repl: string, s: string, prevWord: bool)
    requires IsUpperWord(w)
    requires |s| > 0 && !IsWordChar(s[0])
    ensures SubFrom(WordPattern(w), repl, s, prevWord) == [s[0]] + SubFrom(WordPattern(w), repl, s[1..], false)
  {
    WordNoMatchAtNonWord(w, s, prevWord);
  }

  /** A word run equal to WORD is replaced. */
  lemma WordSubAtMatchingRun(w: string, repl: string, s: string)
    requires IsUpperWord(w)
    requires |s| > 0 && IsWordChar(s[0]) && Upper(s[..WordRunLen(s)]) == w
    ensures WordRunLen(s) == |w|
    ensures SubFrom(WordPattern(w), repl, s, false) == repl + SubFrom(WordPattern(w), repl, s[|w|..], true)
  {
    WordMatchAtRunStart(w, s);
  }

  /** At the start of a word run other than WORD the substitution copies its first character. */
  lemma WordSubSkipsRunStart(w: string, repl: string, s: string)
    requires IsUpperWord(w)
    requires |s| > 0 && IsWordChar(s[0]) && Upper(s[..WordRunLen(s)]) != w
    ensures SubFrom(WordPattern(w), repl, s, false) == [s[0]] + SubFrom(WordPattern(w), repl, s[1..], true)
  {
    WordMatchAtRunStart(w, s);
    SubFromSkip(WordPattern(w), repl, s, false);
  }

  /** The rest of the run is copied too. */
  lemma WordSubCopiesRunRest(w: string, repl: string, s: string)
    requires IsUpperWord(w)
    requires |s| > 0 && IsWordChar(s[0])
    ensures SubFrom(WordPattern(w), repl, s[1..], true) ==
      s[1..WordRunLen(s)] + SubFrom(WordPattern(w), repl, s[WordRunLen(s)..], true)
  {
    var n := WordRunLen(s);
    forall i | 0 <= i < n - 1
      ensures IsWordChar(s[1..][i])
    {
      assert s[1..][i] == s[i + 1];
    }
    SubInsideRun(w, repl, s[1..], n - 1);
    assert s[1..][..n - 1] == s[1..n];
    assert s[1..][n - 1..] == s[n..];
  }

  /** Any other word run is copied whole. */
  lemma WordSubAtOtherRun(w: string, repl: string, s: string)
    requires IsUpperWord(w)
    requires |s| > 0 && IsWordChar(s[0]) && Upper(s[..WordRunLen(s)]) != w
    ensures SubFrom(WordPattern(w), repl, s, false) ==
      s[..WordRunLen(s)] + SubFrom(WordPattern(w), repl, s[WordRunLen(s)..], true)
  {
    var n := WordRunLen(s);
    var p := WordPattern(w);
    WordSubSkipsRunStart(w, repl, s);
    WordSubCopiesRunRest(w, repl, s);
    assert s[..n] == [s[0]] + s[1..n];
    ConsThenAppend(SubFrom(p, repl, s, false), SubFrom(p, repl, s[1..], true), s[0], s[1..n], SubFrom(p, repl, s[n..], true));
  }

  lemma ConsThenAppend<T>(x: seq<T>, y: seq<T>, c: T, b: seq<T>, z: seq<T>)
    requires x == [c] + y && y == b + z
    ensures x == ([c] + b) + z
  {
  }

  /**
   `re.sub(r'\bWORD\b', repl, s, flags=re.IGNORECASE)` replaces exactly the
   maximal word runs equal to WORD.
   */
  lemma {:induction false} WordSubIsRunReplacement(w: string, repl: string, s: string, prevWord: bool)
    requires IsUpperWord(w)
    requires !(prevWord && |s| > 0 && IsWordChar(s[0]))
    ensures SubFrom(WordPattern(w), repl, s, prevWord) == ReplaceWordRuns(s, w, repl)
    decreases |s|
  {
    if |s| > 0 {
      if !IsWordChar(s[0]) {
        WordSubSkipsNonWord(w, repl, s, prevWord);
        WordSubIsRunReplacement(w, repl, s[1..], false);
      } else if Upper(s[..WordRunLen(s)]) == w {
        WordSubAtMatchingRun(w, repl, s);
        WordSubIsRunReplacement(w, repl, s[|w|..], true);
      } else {
        WordSubAtOtherRun(w, repl, s);
        WordSubIsRunReplacement(w, repl, s[WordRunLen(s)..], true);
      }
    }
  }

  /** The whole-string form used by the callers. */
  lemma WordSubReplacesRuns(w: string, repl: string, s: string)
    requires IsUpperWord(w)
    ensures Sub(WordPattern(w), repl, s) == ReplaceWordRuns(s, w, repl)
  {
    WordSubIsRunReplacement(w, repl, s, false);
  }
}
