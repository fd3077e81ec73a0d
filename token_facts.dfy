/** What the walk over a group-free run produces, token kind by token kind,
    and for whole runs of plain text and of two alternatives. */
module TokenFacts {
  import opened Common
  import opened Alphabet
  import opened Quantifiers
  import opened CharClass
  import opened Alternation
  import opened Tokens

  /** A character that stands for itself once when no quantifier follows. */
  predicate IsPlainChar(c: char)
  {
    c != '\\' && c != '[' && c != '.' && c != '^' && c != '$' && c != '*' && c != '+' && c != '?' && c != '{'
  }

  /** Text in which every character stands for itself once: nothing that
      starts a token of its own or a quantifier. */
  predicate Plain(s: string)
  {
    forall k :: 0 <= k < |s| ==> IsPlainChar(s[k])
  }

  /** A plain character not followed by a quantifier is emitted once. */
  lemma PlainToken(maxRepeat: nat, s: string, i: nat)
    requires i < |s| && IsPlainChar(s[i])
    requires i + 1 == |s| || IsPlainChar(s[i + 1])
    ensures TokenAt(maxRepeat, s, i) == Success(Token([s[i]], 1, 1, i + 1))
  {
    if i + 1 < |s| {
      FixedQuantifierRanges(maxRepeat, s, i + 1);
    }
  }

  /** The walk over a token that emits the single character `c`. */
  lemma SingleCharStep(maxRepeat: nat, s: string, i: nat, c: char, r: Result<string>)
    requires i < |s| && TokenAt(maxRepeat, s, i) == Success(Token([c], 1, 1, i + 1))
    ensures WalkOutcome(maxRepeat, s, i, r) <==>
              || (r.Failure? && WalkOutcome(maxRepeat, s, i + 1, r))
              || (r.Success? && |r.value| >= 1 && r.value[0] == c && WalkOutcome(maxRepeat, s, i + 1, Success(r.value[1..])))
  {
    var t := Token([c], 1, 1, i + 1);
    if r.Success? && WalkOutcome(maxRepeat, s, i, r) {
      var v := r.value;
      var j :| 0 <= j <= |v| && Emits(t, v[..j]) && WalkOutcome(maxRepeat, s, i + 1, Success(v[j..]));
      assert j == 1 && v[..1][0] in t.pool;
    }
    if r.Success? && |r.value| >= 1 && r.value[0] == c {
      assert Emits(t, r.value[..1]);
    }
  }

  /** Plain text generates exactly itself: the walk from `i` over text that
      is plain from `i` on emits exactly that text. */
  lemma {:induction false} PlainWalk(maxRepeat: nat, s: string, i: nat, r: Result<string>)
    requires i <= |s| && forall k :: i <= k < |s| ==> IsPlainChar(s[k])
    ensures WalkOutcome(maxRepeat, s, i, r) <==> r == Success(s[i..])
    decreases |s| - i
  {
    if i < |s| {
      PlainToken(maxRepeat, s, i);
      SingleCharStep(maxRepeat, s, i, s[i], r);
      PlainWalk(maxRepeat, s, i + 1, r);
      if r.Success? && |r.value| >= 1 {
        PlainWalk(maxRepeat, s, i + 1, Success(r.value[1..]));
        assert r.value == [r.value[0]] + r.value[1..];
      }
      assert s[i..] == [s[i]] + s[i + 1..];
    } else {
      assert s[i..] == [];
    }
  }

  /** `^` and `$` emit nothing: the walk goes on as if they were absent. */
  lemma AnchorSkipped(maxRepeat: nat, s: string, i: nat, r: Result<string>)
    requires i < |s| && s[i] in "^$"
    ensures WalkOutcome(maxRepeat, s, i, r) <==> WalkOutcome(maxRepeat, s, i + 1, r)
  {
    var t := Token([], 0, 0, i + 1);
    assert TokenAt(maxRepeat, s, i) == Success(t);
    if r.Success? {
      assert r.value[..0] == [] && r.value[0..] == r.value;
      assert Emits(t, r.value[..0]);
    }
  }

  /** A token whose pool is one character and whose count is fixed emits
      that character exactly that many times. */
  lemma FixedSingleDraw(t: Token)
    requires |t.pool| == 1 && t.lo == t.hi
    ensures forall e :: Emits(t, e) <==> e == Copies(t.pool[0], t.lo)
  {
    forall e
      ensures Emits(t, e) <==> e == Copies(t.pool[0], t.lo)
    {
      if Emits(t, e) {
        assert e == Copies(t.pool[0], t.lo);
      }
    }
  }

  /** The literal token at `i` takes its range and length from the
      quantifier after it. */
  lemma QuantifiedLiteral(maxRepeat: nat, s: string, i: nat, qv: Quantifier, lo: nat, hi: nat)
    requires i + 1 < |s| && s[i] != '\\' && s[i] != '[' && s[i] != '.' && s[i] != '^' && s[i] != '$'
    requires QuantifierAt(maxRepeat, s, i + 1) == Some(qv) && RepeatRange(Some(qv)) == Success((lo, hi))
    ensures TokenAt(maxRepeat, s, i) == Success(Token([s[i]], lo, hi, i + 1 + qv.chars))
  {
  }

  /** A token not followed by `*`, `+`, `?` or `{` (or at the end of the
      pattern) is drawn exactly once. */
  lemma Unquantified(maxRepeat: nat, s: string, at: nat)
    requires at <= |s| && (at == |s| || (s[at] != '*' && s[at] != '+' && s[at] != '?' && s[at] != '{'))
    ensures QuantifierAfter(maxRepeat, s, at) == Some(Quantifier(Count(1), Count(1), 0))
    ensures RepeatRange(QuantifierAfter(maxRepeat, s, at)) == Success((1, 1))
  {
  }

  /** A plain character c followed by a quantifier whose range is exactly
      n (such as `{n}`, by `ExactBlockRange`): c exactly n times. */
  lemma ExactLiteralRepeat(maxRepeat: nat, s: string, i: nat, qv: Quantifier, n: nat)
    requires i + 1 < |s| && s[i] != '\\' && s[i] != '[' && s[i] != '.' && s[i] != '^' && s[i] != '$'
    requires QuantifierAt(maxRepeat, s, i + 1) == Some(qv) && RepeatRange(Some(qv)) == Success((n, n))
    ensures TokenAt(maxRepeat, s, i) == Success(Token([s[i]], n, n, i + 1 + qv.chars))
    ensures forall e :: Emits(TokenAt(maxRepeat, s, i).value, e) <==> e == Copies(s[i], n)
  {
    QuantifiedLiteral(maxRepeat, s, i, qv, n, n);
    FixedSingleDraw(Token([s[i]], n, n, i + 1 + qv.chars));
  }

  /** The escape token at `i` with a meaningful character after the backslash takes
      its range and length from the quantifier after the escape. */
  lemma QuantifiedEscape(maxRepeat: nat, s: string, i: nat, qv: Quantifier, lo: nat, hi: nat)
    requires i + 2 < |s| && s[i] == '\\' && IsMeaningfulEscape(s[i + 1])
    requires QuantifierAt(maxRepeat, s, i + 2) == Some(qv) && RepeatRange(Some(qv)) == Success((lo, hi))
    ensures TokenAt(maxRepeat, s, i) == Success(Token(EscapeSet(s[i + 1]), lo, hi, i + 2 + qv.chars))
  {
    EscapeDispatch(maxRepeat, s, i);
    QuantifiedEscapeToken(maxRepeat, s, i, qv, lo, hi);
  }

  /** A backslash is read by `EscapeToken`. */
  lemma EscapeDispatch(maxRepeat: nat, s: string, i: nat)
    requires i < |s| && s[i] == '\\'
    ensures TokenAt(maxRepeat, s, i) == EscapeToken(maxRepeat, s, i)
  {
  }

  /** The escape token once the quantifier after the escape is known. */
  lemma QuantifiedEscapeToken(maxRepeat: nat, s: string, i: nat, qv: Quantifier, lo: nat, hi: nat)
    requires i + 2 < |s| && IsMeaningfulEscape(s[i + 1])
    requires QuantifierAt(maxRepeat, s, i + 2) == Some(qv) && RepeatRange(Some(qv)) == Success((lo, hi))
    ensures EscapeToken(maxRepeat, s, i) == Success(Token(EscapeSet(s[i + 1]), lo, hi, i + 2 + qv.chars))
  {
    assert QuantifierAfter(maxRepeat, s, i + 2) == Some(qv);
  }

  /** `\d` followed by a quantifier whose range is exactly n (such as `{n}`):
      exactly n characters, every one a decimal digit. */
  lemma DigitEscapeRepeat(maxRepeat: nat, s: string, i: nat, qv: Quantifier, n: nat, e: string)
    requires i + 2 < |s| && s[i] == '\\' && s[i + 1] == 'd'
    requires QuantifierAt(maxRepeat, s, i + 2) == Some(qv) && RepeatRange(Some(qv)) == Success((n, n))
    ensures TokenAt(maxRepeat, s, i) == Success(Token(Digits, n, n, i + 2 + qv.chars))
    ensures Emits(TokenAt(maxRepeat, s, i).value, e) ==>
              |e| == n && forall k :: 0 <= k < |e| ==> IsDigit(e[k])
  {
    assert EscapeSet(s[i + 1]) == Digits;
    QuantifiedEscape(maxRepeat, s, i, qv, n, n);
    DigitsMembership();
  }

  /** The token at the last position of a run, when it is a backslash,
      raises IndexError: no escaped character follows. Reached only when the
      walk stops there (a dot before it would skip it). */
  lemma TrailingBackslashRaises(maxRepeat: nat, s: string)
    requires |s| > 0 && s[|s| - 1] == '\\'
    ensures TokenAt(maxRepeat, s, |s| - 1) == Failure(IndexError)
  {
  }

  /** An escaped character with no meaning emits nothing, whatever its
      quantifier. */
  lemma MeaninglessEscapeEmitsNothing(maxRepeat: nat, s: string, i: nat, e: string)
    requires i + 1 < |s| && s[i] == '\\' && !IsMeaningfulEscape(s[i + 1])
    requires TokenAt(maxRepeat, s, i).Success?
    ensures Emits(TokenAt(maxRepeat, s, i).value, e) <==> e == []
    ensures !DrawFails(TokenAt(maxRepeat, s, i).value)
  {
  }

  /** A dot draws from the table alphabet without newline, and the walk
      resumes one character past the dot and its quantifier: the character
      after an unquantified dot is skipped. */
  lemma DotSkipsNext(maxRepeat: nat, s: string, i: nat)
    requires i + 1 < |s| && s[i] == '.' && s[i + 1] != '*' && s[i + 1] != '+' && s[i + 1] != '?' && s[i + 1] != '{'
    ensures TokenAt(maxRepeat, s, i) == Success(Token(DotPool, 1, 1, i + 2))
  {
    FixedQuantifierRanges(maxRepeat, s, i + 1);
  }

  /** A dot followed by any quantifier draws from the dot's pool with that
      quantifier's range; the walk resumes one character after the
      quantifier. */
  lemma QuantifiedDot(maxRepeat: nat, s: string, i: nat, qv: Quantifier, lo: nat, hi: nat)
    requires i + 1 < |s| && s[i] == '.'
    requires QuantifierAt(maxRepeat, s, i + 1) == Some(qv) && RepeatRange(Some(qv)) == Success((lo, hi))
    ensures TokenAt(maxRepeat, s, i) == Success(Token(DotPool, lo, hi, i + 2 + qv.chars))
  {
    assert QuantifierAfter(maxRepeat, s, i + 1) == Some(qv);
    DotDispatch(maxRepeat, s, i);
    DrawnQuantified(maxRepeat, s, i + 1, DotPool, i + 2, qv, lo, hi);
  }

  /** A dot is read by `DotToken`, which draws from the dot's pool under the
      quantifier after the dot. */
  lemma DotDispatch(maxRepeat: nat, s: string, i: nat)
    requires i < |s| && s[i] == '.'
    ensures TokenAt(maxRepeat, s, i) == QuantifiedToken(maxRepeat, s, i + 1, DotPool, i + 2)
  {
    assert TokenAt(maxRepeat, s, i) == DotToken(maxRepeat, s, i);
  }

  lemma DotNeverNewline(maxRepeat: nat, s: string, i: nat, e: string)
    requires i < |s| && s[i] == '.' && TokenAt(maxRepeat, s, i).Success?
    requires Emits(TokenAt(maxRepeat, s, i).value, e)
    ensures forall k :: 0 <= k < |e| ==> e[k] != '\n' && e[k] in AllChars
  {
    forall k | 0 <= k < |e|
      ensures e[k] != '\n' && e[k] in AllChars
    {
      DotPoolMembership(e[k]);
    }
  }

  /** A `[` token at `i` immediately followed by `]` raises IndexError (the
      empty list is subscripted), when the walk reaches `i`. */
  lemma EmptyBracketRaises(maxRepeat: nat, s: string, i: nat)
    requires i + 1 < |s| && s[i] == '[' && s[i + 1] == ']'
    ensures TokenAt(maxRepeat, s, i) == Failure(IndexError)
  {
    assert FindFrom(s, ']', i + 1) == Some(i + 1);
  }

  /** A `[` token at the last position raises IndexError: its list text is
      empty. Reached only when the walk stops there. */
  lemma FinalBracketRaises(maxRepeat: nat, s: string, i: nat)
    requires i + 1 == |s| && s[i] == '['
    ensures TokenAt(maxRepeat, s, i) == Failure(IndexError)
  {
    assert FindFrom(s, ']', i + 1) == None;
  }

  /** `[` with no `]` after it and something in between raises TypeError. */
  lemma UnclosedBracketRaises(maxRepeat: nat, s: string, i: nat)
    requires i + 1 < |s| && s[i] == '['
    requires forall j :: i < j < |s| ==> s[j] != ']'
    ensures TokenAt(maxRepeat, s, i) == Failure(TypeError)
  {
  }

  lemma FirstClose(s: string, from: nat, close: nat)
    requires from <= close < |s| && s[close] == ']'
    requires forall j :: from <= j < close ==> s[j] != ']'
    ensures FindFrom(s, ']', from) == Some(close)
  {
    var found := FindFrom(s, ']', from);
    assert found.Some?;
    assert found.value <= close;
  }

  /** `[...]` without a quantifier draws one character of its class. */
  lemma BracketDrawsOne(maxRepeat: nat, s: string, i: nat, close: nat)
    requires i + 1 < close < |s| && s[i] == '[' && s[close] == ']'
    requires forall j :: i < j < close ==> s[j] != ']'
    requires close + 1 == |s| || (s[close + 1] != '*' && s[close + 1] != '+' && s[close + 1] != '?' && s[close + 1] != '{')
    ensures TokenAt(maxRepeat, s, i) == Success(Token(ClassOf(s[i + 1..close]), 1, 1, close + 1))
  {
    FirstClose(s, i + 1, close);
    ClosedBracket(maxRepeat, s, i, close);
  }

  lemma ClosedBracket(maxRepeat: nat, s: string, i: nat, close: nat)
    requires i + 1 < close < |s| && s[i] == '[' && FindFrom(s, ']', i + 1) == Some(close)
    requires close + 1 == |s| || (s[close + 1] != '*' && s[close + 1] != '+' && s[close + 1] != '?' && s[close + 1] != '{')
    ensures TokenAt(maxRepeat, s, i) == Success(Token(ClassOf(s[i + 1..close]), 1, 1, close + 1))
  {
    Unquantified(maxRepeat, s, close + 1);
    BracketDispatch(maxRepeat, s, i);
    ClosedListOnce(maxRepeat, s, i, close);
  }

  /** An opening square bracket is read by `BracketToken`. */
  lemma BracketDispatch(maxRepeat: nat, s: string, i: nat)
    requires i < |s| && s[i] == '['
    ensures TokenAt(maxRepeat, s, i) == BracketToken(maxRepeat, s, i)
  {
  }

  /** A closed, non-empty bracket list with no quantifier after its `]` is
      drawn from once. */
  lemma ClosedListOnce(maxRepeat: nat, s: string, i: nat, close: nat)
    requires i + 1 < close < |s| && FindFrom(s, ']', i + 1) == Some(close)
    requires QuantifierAfter(maxRepeat, s, close + 1) == Some(Quantifier(Count(1), Count(1), 0))
    ensures BracketToken(maxRepeat, s, i) == Success(Token(ClassOf(s[i + 1..close]), 1, 1, close + 1))
  {
  }

  /** The pool takes its range from the quantifier read at `at`, and the
      walk resumes past the quantifier's characters. */
  lemma DrawnQuantified(maxRepeat: nat, s: string, at: nat, pool: string, resume: nat, qv: Quantifier, lo: nat, hi: nat)
    requires QuantifierAfter(maxRepeat, s, at) == Some(qv) && RepeatRange(Some(qv)) == Success((lo, hi))
    ensures QuantifiedToken(maxRepeat, s, at, pool, resume) == Success(Token(pool, lo, hi, resume + qv.chars))
  {
  }

  /** A run `x|y` of two plain words generates x or y, and both are
      possible. */
  lemma TwoAlternatives(maxRepeat: nat, x: string, y: string, r: Result<string>)
    requires Plain(x) && Plain(y) && '|' !in x && '|' !in y
    ensures RegularOutcome(maxRepeat, x + "|" + y, r) <==> r == Success(x) || r == Success(y)
  {
    var s := x + "|" + y;
    assert s[|x|] == '|';
    assert '[' !in s by {
      assert forall k :: 0 <= k < |x| ==> s[k] == x[k];
      assert forall k :: |x| < k < |s| ==> s[k] == y[k - |x| - 1];
    }
    assert s[0..|x|] == x && s[|x| + 1..|s|] == y;
    PlainWalk(maxRepeat, x, 0, r);
    PlainWalk(maxRepeat, y, 0, r);
    if RegularOutcome(maxRepeat, s, r) {
      var a, b :| Delimits(s, a, b) && WalkOutcome(maxRepeat, s[a..b], 0, r);
      TwoParts(x, y, a, b);
    }
    if r == Success(x) {
      assert Delimits(s, 0, |x|);
    }
    if r == Success(y) {
      assert Delimits(s, |x| + 1, |s|);
    }
  }
}
