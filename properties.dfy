/** What whole patterns generate: plain text, groups with their
    quantifiers, skipped groups, unclosed groups, bracket lists inside a run,
    alternatives, and the slashes `generate` strips.

    The small lemmas without a doc comment of their own, and the one-line
    ones such as `TextAround`, `EndOfRun`, `ChainPrepend`, `LastTail` and
    `EmptyTail`, split a proof into steps. Each step then sees only the facts
    it needs, which keeps the solver's work small and stable. */
module Properties {
  import opened Common
  import opened Quantifiers
  import opened CharClass
  import opened Groups
  import opened Tokens
  import opened TokenFacts
  import opened Engine

  /** Text that generates itself wherever it stands in a pattern: plain
      characters and no parenthesis or `|`. */
  predicate PlainText(s: string)
  {
    Plain(s) && forall k :: 0 <= k < |s| ==> s[k] != '(' && s[k] != ')' && s[k] != '|'
  }

  /** A regular run of plain text is one walk over it, which emits the
      text. */
  lemma RegularPlain(maxRepeat: nat, p: string, r: Result<string>)
    requires PlainText(p)
    ensures RegularOutcome(maxRepeat, p, r) <==> r == Success(p)
  {
    assert '|' !in p;
    PlainWalk(maxRepeat, p, 0, r);
    assert p[0..] == p;
  }

  /** A pattern without a `[` is not split: it is processed as one regular
      run. */
  lemma SplitWithoutBracket(maxRepeat: nat, p: string, r: Result<string>)
    requires '[' !in p
    ensures SplitOutcome(maxRepeat, p, r) <==> RegularOutcome(maxRepeat, p, r)
  {
    assert FindFrom(p, '[', 0) == None;
  }

  /** Plain text holds no `[`, so splitting it is one regular run. */
  lemma SplitPlain(maxRepeat: nat, p: string, r: Result<string>)
    requires PlainText(p)
    ensures SplitOutcome(maxRepeat, p, r) <==> r == Success(p)
  {
    SplitWithoutBracket(maxRepeat, p, r);
    RegularPlain(maxRepeat, p, r);
  }

  /** A pattern of plain text generates exactly that text. */
  lemma PlainPattern(maxRepeat: nat, p: string, eff: Effect)
    requires PlainText(p)
    ensures PatternEffect(maxRepeat, p, eff) <==> eff == Effect(p, None)
  {
    assert |OuterBrackets(p)| == 0;
    if PatternEffect(maxRepeat, p, eff) {
      var r :| SplitOutcome(maxRepeat, p, r) && eff == Settle(r);
      SplitPlain(maxRepeat, p, r);
    }
    if eff == Effect(p, None) {
      SplitPlain(maxRepeat, p, Success(p));
      assert SplitOutcome(maxRepeat, p, Success(p)) && eff == Settle(Success(p));
    }
  }

  /** `k` concatenated copies of the text `p`. */
  function Times(p: string, k: nat): string
  {
    if k == 0 then [] else p + Times(p, k - 1)
  }

  lemma {:induction false} TimesSnoc(p: string, k: nat)
    ensures Times(p, k + 1) == Times(p, k) + p
  {
    if k > 0 {
      TimesSnoc(p, k - 1);
    }
  }

  /** Processing plain text `k` times emits `k` copies of it. */
  lemma RepeatPlain(maxRepeat: nat, p: string, k: nat, eff: Effect)
    requires PlainText(p)
    ensures RepeatEffect(maxRepeat, p, k, eff) <==> eff == Effect(Times(p, k), None)
  {
    RepeatPlainAll(maxRepeat, p, k);
    if RepeatEffect(maxRepeat, p, k, eff) {
      RepeatPlainOnly(maxRepeat, p, k, eff);
    }
  }

  lemma {:induction false} RepeatPlainOnly(maxRepeat: nat, p: string, k: nat, eff: Effect)
    requires PlainText(p) && RepeatEffect(maxRepeat, p, k, eff)
    ensures eff == Effect(Times(p, k), None)
  {
    if k > 0 {
      var first, last :| RepeatEffect(maxRepeat, p, k - 1, first)
                          && (first.raised.None? ==> PatternEffect(maxRepeat, p, last))
                          && eff == Then(first, last);
      RepeatPlainOnly(maxRepeat, p, k - 1, first);
      PlainPattern(maxRepeat, p, last);
      OneMoreCopy(p, k - 1, first, last, eff);
    }
  }

  lemma {:induction false} RepeatPlainAll(maxRepeat: nat, p: string, k: nat)
    requires PlainText(p)
    ensures RepeatEffect(maxRepeat, p, k, Effect(Times(p, k), None))
  {
    if k > 0 {
      RepeatPlainAll(maxRepeat, p, k - 1);
      PlainPattern(maxRepeat, p, Effect(p, None));
      RepeatOneMore(maxRepeat, p, k - 1);
    }
  }

  lemma RepeatOneMore(maxRepeat: nat, p: string, k: nat)
    requires RepeatEffect(maxRepeat, p, k, Effect(Times(p, k), None))
    requires PatternEffect(maxRepeat, p, Effect(p, None))
    ensures RepeatEffect(maxRepeat, p, k + 1, Effect(Times(p, k + 1), None))
  {
    RepeatChained(maxRepeat, p, k, Effect(Times(p, k), None), Effect(p, None));
    ThenOneMore(p, k);
  }

  /** One more copy of `p` after `k` copies. */
  lemma ThenOneMore(p: string, k: nat)
    ensures Then(Effect(Times(p, k), None), Effect(p, None)) == Effect(Times(p, k + 1), None)
  {
    TimesSnoc(p, k);
  }

  lemma OneMoreCopy(p: string, k: nat, first: Effect, last: Effect, eff: Effect)
    requires first == Effect(Times(p, k), None) && last == Effect(p, None) && eff == Then(first, last)
    ensures eff == Effect(Times(p, k + 1), None)
  {
    ThenOneMore(p, k);
  }

  lemma {:induction false} FirstOpenSkips(s: string, i: nat, j: nat)
    requires i <= j <= |s|
    requires forall k :: i <= k < j ==> s[k] != '('
    ensures FirstOpen(s, i) == FirstOpen(s, j)
    decreases j - i
  {
    if i < j {
      FirstOpenSkips(s, i + 1, j);
    }
  }

  lemma {:induction false} CloseFromSkips(s: string, i: nat, j: nat, depth: int)
    requires i <= j <= |s|
    requires forall k :: i <= k < j ==> s[k] != '(' && s[k] != ')'
    ensures CloseFrom(s, i, depth) == CloseFrom(s, j, depth)
    decreases j - i
  {
    if i < j {
      CloseFromSkips(s, i + 1, j, depth);
    }
  }

  /** The group `get_outer_brackets` finds when the first `(` is unescaped
      and no parenthesis stands before the matching `)`. */
  lemma GroupBrackets(s: string, open: nat, close: nat)
    requires open < close < |s|
    requires s[open] == '(' && Prev(s, open) != '\\' && s[close] == ')' && Prev(s, close) != '\\'
    requires forall k :: 0 <= k < open ==> s[k] != '('
    requires forall k :: open < k < close ==> s[k] != '(' && s[k] != ')'
    ensures OuterBrackets(s) == [open, close]
  {
    FirstOpenSkips(s, 0, open);
    CloseFromSkips(s, open + 1, close, 0);
  }

  /** `s` is one group around the plain text `p` at the start of the
      pattern, followed only by the quantifier that applies to it. */
  ghost predicate WholeGroup(maxRepeat: nat, s: string, p: string)
  {
    && |p| + 2 <= |s| && PlainText(p) && s[1..|p| + 1] == p
    && OuterBrackets(s) == [0, |p| + 1] && !IsSkippedGroup(s, 0)
  }

  /** The quantifier after the group `(p)` at the start of `s` reaches the
      end of `s`. */
  ghost predicate QuantifierEnds(maxRepeat: nat, s: string, p: string)
  {
    QuantifierAfter(maxRepeat, s, |p| + 2).Some? ==>
      |s| <= |p| + 2 + QuantifierAfter(maxRepeat, s, |p| + 2).value.chars
  }

  /** `(p)` followed by text not ending in a backslash is a whole group. */
  lemma GroupFrame(maxRepeat: nat, p: string, quant: string)
    requires PlainText(p)
    requires quant == [] || quant[|quant| - 1] != '\\'
    ensures WholeGroup(maxRepeat, "(" + p + ")" + quant, p)
  {
    var s := "(" + p + ")" + quant;
    var close := |p| + 1;
    assert s[|s| - 1] != '\\' by {
      if quant == [] {
        assert s[|s| - 1] == ')';
      } else {
        assert s[|s| - 1] == quant[|quant| - 1];
      }
    }
    assert s[close - 1] != '\\' by {
      if p != [] {
        assert s[close - 1] == p[|p| - 1];
      }
    }
    forall k | 0 < k < close
      ensures s[k] != '(' && s[k] != ')'
    {
      assert s[k] == p[k - 1];
    }
    GroupBrackets(s, 0, close);
    assert s[1] != '?' by {
      if p != [] {
        assert s[1] == p[0];
      }
    }
    assert s[1..close] == p;
  }

  /** What a whole group can produce: the error of its quantifier, or between
      its bounds many copies of its text. */
  lemma WholeGroupOnly(maxRepeat: nat, s: string, p: string, eff: Effect)
    requires WholeGroup(maxRepeat, s, p) && PatternEffect(maxRepeat, s, eff)
    requires RepeatRange(QuantifierAfter(maxRepeat, s, |p| + 2)).Success? ==> QuantifierEnds(maxRepeat, s, p)
    ensures var range := RepeatRange(QuantifierAfter(maxRepeat, s, |p| + 2));
            && (range.Failure? ==> eff == Raise(range.error))
            && (range.Success? ==> exists k :: range.value.0 <= k <= range.value.1 && eff == Effect(Times(p, k), None))
  {
    var close := |p| + 1;
    var q := QuantifierAfter(maxRepeat, s, close + 1);
    assert GroupEffect(maxRepeat, s, 0, close, eff);
    var before, body, after :| before == Nothing
      && BodyEffect(maxRepeat, s, 0, close, q, body)
      && (body.raised.None? ==> AfterEffect(maxRepeat, s, close, q, after))
      && eff == Then(before, Then(body, after));
    match RepeatRange(q)
    case Failure(e) =>
      assert body == Raise(e);
    case Success(range) =>
      assert Repeats(maxRepeat, p, range.0, range.1, body);
      var k :| range.0 <= k <= range.1 && RepeatEffect(maxRepeat, p, k, body);
      RepeatPlain(maxRepeat, p, k, body);
      assert after == Nothing;
      assert eff == Effect(Times(p, k), None);
  }

  /** A whole group whose quantifier fails raises that error. */
  lemma WholeGroupRaises(maxRepeat: nat, s: string, p: string)
    requires WholeGroup(maxRepeat, s, p) && RepeatRange(QuantifierAfter(maxRepeat, s, |p| + 2)).Failure?
    ensures PatternEffect(maxRepeat, s, Raise(RepeatRange(QuantifierAfter(maxRepeat, s, |p| + 2)).error))
  {
    var e := RepeatRange(QuantifierAfter(maxRepeat, s, |p| + 2)).error;
    GroupChained(maxRepeat, s, 0, |p| + 1, Nothing, Raise(e), Nothing);
    assert Then(Nothing, Then(Raise(e), Nothing)) == Raise(e);
  }

  /** A whole group can produce each count of copies between its bounds. */
  lemma WholeGroupRepeats(maxRepeat: nat, s: string, p: string, k: nat)
    requires WholeGroup(maxRepeat, s, p) && QuantifierEnds(maxRepeat, s, p)
    requires var range := RepeatRange(QuantifierAfter(maxRepeat, s, |p| + 2));
             range.Success? && range.value.0 <= k <= range.value.1
    ensures PatternEffect(maxRepeat, s, Effect(Times(p, k), None))
  {
    var close := |p| + 1;
    var q := QuantifierAfter(maxRepeat, s, close + 1);
    var body := Effect(Times(p, k), None);
    RepeatPlain(maxRepeat, p, k, body);
    assert BodyEffect(maxRepeat, s, 0, close, q, body);
    assert AfterEffect(maxRepeat, s, close, q, Nothing);
    GroupChained(maxRepeat, s, 0, close, Nothing, body, Nothing);
    assert Then(Nothing, Then(body, Nothing)) == body;
  }

  /** A group of plain text at the start of a pattern, followed only by the
      quantifier that applies to it: when the quantifier's range fails the
      pattern raises that error, otherwise it produces between the bounds
      many copies of the text, and each such count is possible. */
  lemma QuantifiedGroup(maxRepeat: nat, p: string, quant: string, eff: Effect)
    requires PlainText(p)
    requires quant == [] || quant[|quant| - 1] != '\\'
    requires var q := QuantifierAfter(maxRepeat, "(" + p + ")" + quant, |p| + 2);
             q.Some? ==> q.value.chars == |quant|
    ensures var s := "(" + p + ")" + quant;
            var range := RepeatRange(QuantifierAfter(maxRepeat, s, |p| + 2));
            && (range.Failure? ==> (PatternEffect(maxRepeat, s, eff) <==> eff == Raise(range.error)))
            && (range.Success? ==>
                  (PatternEffect(maxRepeat, s, eff) <==>
                   exists k :: range.value.0 <= k <= range.value.1 && eff == Effect(Times(p, k), None)))
  {
    var s := "(" + p + ")" + quant;
    var range := RepeatRange(QuantifierAfter(maxRepeat, s, |p| + 2));
    GroupFrame(maxRepeat, p, quant);
    assert QuantifierEnds(maxRepeat, s, p);
    if PatternEffect(maxRepeat, s, eff) {
      WholeGroupOnly(maxRepeat, s, p, eff);
    }
    if range.Failure? {
      WholeGroupRaises(maxRepeat, s, p);
    } else if k :| range.value.0 <= k <= range.value.1 && eff == Effect(Times(p, k), None) {
      WholeGroupRepeats(maxRepeat, s, p, k);
    }
  }

  /** `(p)` alone: the text once. */
  lemma BareGroup(maxRepeat: nat, p: string, eff: Effect)
    requires PlainText(p)
    ensures PatternEffect(maxRepeat, "(" + p + ")", eff) <==> eff == Effect(p, None)
  {
    var s := "(" + p + ")";
    assert s + [] == s;
    assert QuantifierAfter(maxRepeat, s, |p| + 2) == Some(Quantifier(Count(1), Count(1), 0));
    QuantifiedGroup(maxRepeat, p, [], eff);
    assert Times(p, 1) == p;
  }

  /** `(p)*`: between none and `maxRepeat` copies of the text. */
  lemma StarGroup(maxRepeat: nat, p: string, eff: Effect)
    requires PlainText(p)
    ensures PatternEffect(maxRepeat, "(" + p + ")*", eff) <==>
            exists k :: 0 <= k <= maxRepeat && eff == Effect(Times(p, k), None)
  {
    var s := "(" + p + ")*";
    assert s == "(" + p + ")" + "*";
    assert s[|p| + 2] == '*';
    FixedQuantifierRanges(maxRepeat, s, |p| + 2);
    QuantifiedGroup(maxRepeat, p, "*", eff);
  }

  /** `(p)+`: between one and `maxRepeat` copies of the text; with a
      `max_repeat` of 0 the draw raises ValueError. */
  lemma PlusGroup(maxRepeat: nat, p: string, eff: Effect)
    requires PlainText(p)
    ensures maxRepeat >= 1 ==>
              (PatternEffect(maxRepeat, "(" + p + ")+", eff) <==>
               exists k :: 1 <= k <= maxRepeat && eff == Effect(Times(p, k), None))
    ensures maxRepeat == 0 ==> (PatternEffect(maxRepeat, "(" + p + ")+", eff) <==> eff == Raise(ValueError))
  {
    var s := "(" + p + ")+";
    assert s == "(" + p + ")" + "+";
    assert s[|p| + 2] == '+';
    FixedQuantifierRanges(maxRepeat, s, |p| + 2);
    QuantifiedGroup(maxRepeat, p, "+", eff);
  }

  /** `(p)?`: the text or nothing. */
  lemma OptionalGroup(maxRepeat: nat, p: string, eff: Effect)
    requires PlainText(p)
    ensures PatternEffect(maxRepeat, "(" + p + ")?", eff) <==> eff == Nothing || eff == Effect(p, None)
  {
    var s := "(" + p + ")?";
    assert s == "(" + p + ")" + "?";
    assert s[|p| + 2] == '?';
    FixedQuantifierRanges(maxRepeat, s, |p| + 2);
    assert RepeatRange(QuantifierAfter(maxRepeat, s, |p| + 2)) == Success((0, 1));
    QuantifiedGroup(maxRepeat, p, "?", eff);
    OneOrNone(p, eff);
  }

  /** Zero or one copies of `p` are nothing or `p` itself. */
  lemma OneOrNone(p: string, eff: Effect)
    ensures (exists k :: 0 <= k <= 1 && eff == Effect(Times(p, k), None)) <==> eff == Nothing || eff == Effect(p, None)
  {
    assert Times(p, 0) == [] && Times(p, 1) == p;
    if eff == Nothing || eff == Effect(p, None) {
      var k := if eff == Nothing then 0 else 1;
      assert eff == Effect(Times(p, k), None);
    }
  }

  /** The quantifier text after a group `(p)`. */
  lemma QuantifierText(p: string, quant: string)
    ensures var s := "(" + p + ")" + quant; |s| == |p| + 2 + |quant| && s[|p| + 2..|s|] == quant
  {
  }

  /** `(p){n}`: exactly `n` copies of the text. */
  lemma ExactGroup(maxRepeat: nat, p: string, n: nat, eff: Effect)
    requires PlainText(p)
    ensures var quant := "{" + Decimal(n) + "}";
            PatternEffect(maxRepeat, "(" + p + ")" + quant, eff) <==> eff == Effect(Times(p, n), None)
  {
    var quant := "{" + Decimal(n) + "}";
    var s := "(" + p + ")" + quant;
    QuantifierText(p, quant);
    ExactBlockRange(maxRepeat, s, |p| + 2, n);
    assert RepeatRange(QuantifierAfter(maxRepeat, s, |p| + 2)) == Success((n, n));
    QuantifiedGroup(maxRepeat, p, quant, eff);
    if PatternEffect(maxRepeat, s, eff) {
      var k :| n <= k <= n && eff == Effect(Times(p, k), None);
      assert k == n;
    }
    if eff == Effect(Times(p, n), None) {
      assert n <= n <= n && eff == Effect(Times(p, n), None);
    }
  }

  /** `(p){m,n}`: between m and n copies of the text; ValueError when m > n. */
  lemma RangeGroup(maxRepeat: nat, p: string, m: nat, n: nat, eff: Effect)
    requires PlainText(p)
    ensures var s := "(" + p + ")" + ("{" + Decimal(m) + "," + Decimal(n) + "}");
            && (m <= n ==> (PatternEffect(maxRepeat, s, eff) <==> exists k :: m <= k <= n && eff == Effect(Times(p, k), None)))
            && (m > n ==> (PatternEffect(maxRepeat, s, eff) <==> eff == Raise(ValueError)))
  {
    var quant := "{" + Decimal(m) + "," + Decimal(n) + "}";
    var s := "(" + p + ")" + quant;
    QuantifierText(p, quant);
    RangeBlockRange(maxRepeat, s, |p| + 2, m, n);
    assert QuantifierAfter(maxRepeat, s, |p| + 2) == QuantifierAt(maxRepeat, s, |p| + 2);
    QuantifiedGroup(maxRepeat, p, quant, eff);
  }

  /** `(p){m,}`: the missing upper bound is `None`, which `int()` rejects
      with TypeError. */
  lemma OpenAboveGroup(maxRepeat: nat, p: string, m: nat, eff: Effect)
    requires PlainText(p)
    ensures PatternEffect(maxRepeat, "(" + p + ")" + ("{" + Decimal(m) + "," + "}"), eff) <==> eff == Raise(TypeError)
  {
    var quant := "{" + Decimal(m) + "," + "}";
    var s := "(" + p + ")" + quant;
    QuantifierText(p, quant);
    OpenAboveBlockRaises(maxRepeat, s, |p| + 2, m);
    GroupFrame(maxRepeat, p, quant);
    if PatternEffect(maxRepeat, s, eff) {
      WholeGroupOnly(maxRepeat, s, p, eff);
    }
    WholeGroupRaises(maxRepeat, s, p);
  }

  /** The text before a group or after its quantifier: plain text, or
      nothing at all. */
  lemma PlainPiece(maxRepeat: nat, p: string, eff: Effect)
    requires PlainText(p)
    ensures (if |p| > 0 then PatternEffect(maxRepeat, p, eff) else eff == Nothing) <==> eff == Effect(p, None)
  {
    if |p| > 0 {
      PlainPattern(maxRepeat, p, eff);
    }
  }

  /** `s` is `x`, then a skipped group from `open` to `close` that no
      quantifier follows, then `z`. */
  ghost predicate SkippedShape(maxRepeat: nat, s: string, x: string, z: string, close: nat)
  {
    && |x| < close < |s| && PlainText(x) && PlainText(z) && IsSkippedGroup(s, |x|)
    && s[..|x|] == x && s[close + 1..] == z
    && QuantifierAfter(maxRepeat, s, close + 1) == Some(Quantifier(Count(1), Count(1), 0))
  }

  /** Where the skipped group `(?m y)` lies in `x(?m y)z`. */
  lemma SkippedFrame(maxRepeat: nat, x: string, m: char, y: string, z: string)
    requires PlainText(x) && PlainText(y) && PlainText(z) && (m == ':' || m == '=' || m == '!')
    ensures SkippedShape(maxRepeat, x + "(?" + [m] + y + ")" + z, x, z, |x| + |y| + 3)
    ensures OuterBrackets(x + "(?" + [m] + y + ")" + z) == [|x|, |x| + |y| + 3]
  {
    var s := x + "(?" + [m] + y + ")" + z;
    var close := |x| + |y| + 3;
    assert Prev(s, |x|) != '\\' by {
      if |x| > 0 {
        assert s[|x| - 1] == x[|x| - 1];
      } else if |z| > 0 {
        assert s[|s| - 1] == z[|z| - 1];
      } else {
        assert s[|s| - 1] == ')';
      }
    }
    assert s[close - 1] != '\\' by {
      if |y| > 0 {
        assert s[close - 1] == y[|y| - 1];
      } else {
        assert s[close - 1] == m;
      }
    }
    forall k | 0 <= k < |x|
      ensures s[k] != '('
    {
      assert s[k] == x[k];
    }
    forall k | |x| + 2 < k < close
      ensures s[k] != '(' && s[k] != ')'
    {
      assert s[k] == y[k - |x| - 3];
    }
    GroupBrackets(s, |x|, close);
    assert s[..|x|] == x;
    assert s[close + 1..] == z;
    assert close + 1 < |s| ==> s[close + 1] == z[0];
    Unquantified(maxRepeat, s, close + 1);
  }

  /** `(?:y)`, `(?=y)` and `(?!y)` are passed over: `x(?:y)z` generates `x`
      followed by `z`, and never the body `y`. */
  lemma SkippedGroupPattern(maxRepeat: nat, x: string, m: char, y: string, z: string, eff: Effect)
    requires PlainText(x) && PlainText(y) && PlainText(z) && (m == ':' || m == '=' || m == '!')
    ensures PatternEffect(maxRepeat, x + "(?" + [m] + y + ")" + z, eff) <==> eff == Effect(x + z, None)
  {
    SkippedFrame(maxRepeat, x, m, y, z);
    SkippedPattern(maxRepeat, x + "(?" + [m] + y + ")" + z, x, z, |x| + |y| + 3, eff);
  }

  lemma SkippedPattern(maxRepeat: nat, s: string, x: string, z: string, close: nat, eff: Effect)
    requires SkippedShape(maxRepeat, s, x, z, close) && OuterBrackets(s) == [|x|, close]
    ensures PatternEffect(maxRepeat, s, eff) <==> eff == Effect(x + z, None)
  {
    SkippedAll(maxRepeat, s, x, z, close);
    if PatternEffect(maxRepeat, s, eff) {
      SkippedOnly(maxRepeat, s, x, z, close, eff);
    }
  }

  lemma SkippedOnly(maxRepeat: nat, s: string, x: string, z: string, close: nat, eff: Effect)
    requires SkippedShape(maxRepeat, s, x, z, close) && GroupEffect(maxRepeat, s, |x|, close, eff)
    ensures eff == Effect(x + z, None)
  {
    var q := QuantifierAfter(maxRepeat, s, close + 1);
    var before, body, after :|
      && (if |x| > 0 then PatternEffect(maxRepeat, s[..|x|], before) else before == Nothing)
      && (before.raised.None? ==> BodyEffect(maxRepeat, s, |x|, close, q, body))
      && (before.raised.None? && body.raised.None? ==> AfterEffect(maxRepeat, s, close, q, after))
      && eff == Then(before, Then(body, after));
    BeforePlain(maxRepeat, s, x, before);
    AfterPlain(maxRepeat, s, close, z, after);
    TextAroundNothing(x, z, before, body, after, eff);
  }

  lemma SkippedAll(maxRepeat: nat, s: string, x: string, z: string, close: nat)
    requires SkippedShape(maxRepeat, s, x, z, close)
    ensures GroupEffect(maxRepeat, s, |x|, close, Effect(x + z, None))
  {
    BeforePlain(maxRepeat, s, x, Effect(x, None));
    AfterPlain(maxRepeat, s, close, z, Effect(z, None));
    GroupChained(maxRepeat, s, |x|, close, Effect(x, None), Nothing, Effect(z, None));
    TextAroundNothing(x, z, Effect(x, None), Nothing, Effect(z, None), Then(Effect(x, None), Then(Nothing, Effect(z, None))));
  }

  /** The plain text before a group, or nothing when the group opens the
      pattern. */
  lemma BeforePlain(maxRepeat: nat, s: string, x: string, before: Effect)
    requires |x| < |s| && s[..|x|] == x && PlainText(x)
    ensures (if |x| > 0 then PatternEffect(maxRepeat, s[..|x|], before) else before == Nothing) <==> before == Effect(x, None)
  {
    PlainPiece(maxRepeat, x, before);
  }

  /** The plain text after an unquantified group, or nothing when the group
      ends the pattern. */
  lemma AfterPlain(maxRepeat: nat, s: string, close: nat, z: string, after: Effect)
    requires close < |s| && s[close + 1..] == z && PlainText(z)
    requires QuantifierAfter(maxRepeat, s, close + 1) == Some(Quantifier(Count(1), Count(1), 0))
    ensures AfterEffect(maxRepeat, s, close, QuantifierAfter(maxRepeat, s, close + 1), after) <==> after == Effect(z, None)
  {
    assert |s| - 1 > close <==> |z| > 0;
    PlainPiece(maxRepeat, z, after);
  }

  lemma TextAroundNothing(x: string, z: string, before: Effect, body: Effect, after: Effect, eff: Effect)
    requires before == Effect(x, None) && body == Nothing && after == Effect(z, None)
    requires eff == Then(before, Then(body, after))
    ensures eff == Effect(x + z, None)
  {
    assert [] + z == z;
  }

  /** `s` is the plain text `x`, then a group `(p)` of plain text closed at
      `close`, then its quantifier, then the plain text `z`. */
  ghost predicate GroupInText(maxRepeat: nat, s: string, x: string, p: string, z: string, close: nat)
  {
    && close == |x| + |p| + 1 && close < |s|
    && PlainText(x) && PlainText(p) && PlainText(z)
    && s[..|x|] == x && s[|x| + 1..close] == p && !IsSkippedGroup(s, |x|)
    && (var q := QuantifierAfter(maxRepeat, s, close + 1);
        q.Some? ==> close + 1 + q.value.chars <= |s| && s[close + 1 + q.value.chars..] == z)
  }

  /** Where the group and the text around it lie in `x(p)quant z`. */
  lemma GroupInTextFrame(maxRepeat: nat, x: string, p: string, quant: string, z: string)
    requires PlainText(x) && PlainText(p) && PlainText(z)
    requires quant == [] || quant[|quant| - 1] != '\\'
    requires var q := QuantifierAfter(maxRepeat, x + "(" + p + ")" + quant + z, |x| + |p| + 2);
             q.Some? ==> q.value.chars == |quant|
    ensures GroupInText(maxRepeat, x + "(" + p + ")" + quant + z, x, p, z, |x| + |p| + 1)
    ensures OuterBrackets(x + "(" + p + ")" + quant + z) == [|x|, |x| + |p| + 1]
  {
    var s := x + "(" + p + ")" + quant + z;
    var open := |x|;
    var close := |x| + |p| + 1;
    GroupInTextBrackets(x, p, quant, z);
    assert s[open + 1] != '?' by {
      if |p| > 0 {
        assert s[open + 1] == p[0];
      }
    }
    assert s[..open] == x;
    forall k | 0 <= k < |p|
      ensures s[open + 1..close][k] == p[k]
    {
      assert s[open + 1 + k] == p[k];
    }
    assert s[open + 1..close] == p;
    assert s[close + 1 + |quant|..] == z;
  }

  /** `get_outer_brackets` finds the group of `x(p)quant z`. */
  lemma GroupInTextBrackets(x: string, p: string, quant: string, z: string)
    requires PlainText(x) && PlainText(p) && PlainText(z)
    requires quant == [] || quant[|quant| - 1] != '\\'
    ensures OuterBrackets(x + "(" + p + ")" + quant + z) == [|x|, |x| + |p| + 1]
  {
    var s := x + "(" + p + ")" + quant + z;
    var open := |x|;
    var close := |x| + |p| + 1;
    assert s[open] == '(' && s[close] == ')';
    assert Prev(s, open) != '\\' by {
      if |x| > 0 {
        assert s[open - 1] == x[|x| - 1];
      } else if |z| > 0 {
        assert s[|s| - 1] == z[|z| - 1];
      } else if |quant| > 0 {
        assert s[|s| - 1] == quant[|quant| - 1];
      } else {
        assert s[|s| - 1] == ')';
      }
    }
    assert s[close - 1] != '\\' by {
      if |p| > 0 {
        assert s[close - 1] == p[|p| - 1];
      }
    }
    forall k | 0 <= k < open
      ensures s[k] != '('
    {
      assert s[k] == x[k];
    }
    forall k | open < k < close
      ensures s[k] != '(' && s[k] != ')'
    {
      assert s[k] == p[k - open - 1];
    }
    GroupBrackets(s, open, close);
  }

  /** A group of plain text with plain text before it and after its
      quantifier: when the quantifier's range fails, the text before the
      group is appended and then that error raised; otherwise the text
      before, between the bounds many copies of the body, and the text
      after are appended, and each such count is possible. */
  lemma QuantifiedGroupInText(maxRepeat: nat, x: string, p: string, quant: string, z: string, eff: Effect)
    requires PlainText(x) && PlainText(p) && PlainText(z)
    requires quant == [] || quant[|quant| - 1] != '\\'
    requires var q := QuantifierAfter(maxRepeat, x + "(" + p + ")" + quant + z, |x| + |p| + 2);
             q.Some? ==> q.value.chars == |quant|
    ensures var s := x + "(" + p + ")" + quant + z;
            var range := RepeatRange(QuantifierAfter(maxRepeat, s, |x| + |p| + 2));
            && (range.Failure? ==> (PatternEffect(maxRepeat, s, eff) <==> eff == Effect(x, Some(range.error))))
            && (range.Success? ==>
                  (PatternEffect(maxRepeat, s, eff) <==>
                   exists k :: range.value.0 <= k <= range.value.1 && eff == Effect(x + Times(p, k) + z, None)))
  {
    var s := x + "(" + p + ")" + quant + z;
    var close := |x| + |p| + 1;
    var q := QuantifierAfter(maxRepeat, s, |x| + |p| + 2);
    assert close + 1 == |x| + |p| + 2;
    GroupInTextFrame(maxRepeat, x, p, quant, z);
    GroupInTextEffect(maxRepeat, s, x, p, z, close, q, eff);
  }

  lemma GroupInTextEffect(maxRepeat: nat, s: string, x: string, p: string, z: string, close: nat, q: Option<Quantifier>, eff: Effect)
    requires GroupInText(maxRepeat, s, x, p, z, close) && OuterBrackets(s) == [|x|, close]
    requires q == QuantifierAfter(maxRepeat, s, close + 1)
    ensures var range := RepeatRange(q);
            && (range.Failure? ==> (PatternEffect(maxRepeat, s, eff) <==> eff == Effect(x, Some(range.error))))
            && (range.Success? ==>
                  (PatternEffect(maxRepeat, s, eff) <==>
                   exists k :: range.value.0 <= k <= range.value.1 && eff == Effect(x + Times(p, k) + z, None)))
  {
    var range := RepeatRange(QuantifierAfter(maxRepeat, s, close + 1));
    assert PatternEffect(maxRepeat, s, eff) <==> GroupEffect(maxRepeat, s, |x|, close, eff);
    if GroupEffect(maxRepeat, s, |x|, close, eff) {
      GroupInTextOnly(maxRepeat, s, x, p, z, close, eff);
    }
    if range.Failure? {
      GroupInTextRaises(maxRepeat, s, x, p, z, close);
    } else if k :| range.value.0 <= k <= range.value.1 && eff == Effect(x + Times(p, k) + z, None) {
      GroupInTextRepeats(maxRepeat, s, x, p, z, close, k);
    }
  }

  lemma GroupInTextOnly(maxRepeat: nat, s: string, x: string, p: string, z: string, close: nat, eff: Effect)
    requires GroupInText(maxRepeat, s, x, p, z, close) && GroupEffect(maxRepeat, s, |x|, close, eff)
    ensures var range := RepeatRange(QuantifierAfter(maxRepeat, s, close + 1));
            && (range.Failure? ==> eff == Effect(x, Some(range.error)))
            && (range.Success? ==>
                  exists k :: range.value.0 <= k <= range.value.1 && eff == Effect(x + Times(p, k) + z, None))
  {
    var q := QuantifierAfter(maxRepeat, s, close + 1);
    var before, body, after :|
      && (if |x| > 0 then PatternEffect(maxRepeat, s[..|x|], before) else before == Nothing)
      && (before.raised.None? ==> BodyEffect(maxRepeat, s, |x|, close, q, body))
      && (before.raised.None? && body.raised.None? ==> AfterEffect(maxRepeat, s, close, q, after))
      && eff == Then(before, Then(body, after));
    BeforePlain(maxRepeat, s, x, before);
    var k := BodyOnly(maxRepeat, s, |x|, close, q, p, body);
    if RepeatRange(q).Success? {
      AfterQuantifierPlain(maxRepeat, s, close, q, z, after);
      TextAround(x, Times(p, k), z, before, body, after, eff);
    } else {
      assert x + [] == x;
    }
  }

  lemma GroupInTextRaises(maxRepeat: nat, s: string, x: string, p: string, z: string, close: nat)
    requires GroupInText(maxRepeat, s, x, p, z, close)
    requires RepeatRange(QuantifierAfter(maxRepeat, s, close + 1)).Failure?
    ensures GroupEffect(maxRepeat, s, |x|, close, Effect(x, Some(RepeatRange(QuantifierAfter(maxRepeat, s, close + 1)).error)))
  {
    var e := RepeatRange(QuantifierAfter(maxRepeat, s, close + 1)).error;
    BeforePlain(maxRepeat, s, x, Effect(x, None));
    GroupChained(maxRepeat, s, |x|, close, Effect(x, None), Raise(e), Nothing);
    assert x + [] == x;
  }

  lemma GroupInTextRepeats(maxRepeat: nat, s: string, x: string, p: string, z: string, close: nat, k: nat)
    requires GroupInText(maxRepeat, s, x, p, z, close)
    requires var range := RepeatRange(QuantifierAfter(maxRepeat, s, close + 1));
             range.Success? && range.value.0 <= k <= range.value.1
    ensures GroupEffect(maxRepeat, s, |x|, close, Effect(x + Times(p, k) + z, None))
  {
    var q := QuantifierAfter(maxRepeat, s, close + 1);
    var before, body, after := Effect(x, None), Effect(Times(p, k), None), Effect(z, None);
    BeforePlain(maxRepeat, s, x, before);
    BodyRepeats(maxRepeat, s, |x|, close, q, p, k);
    AfterQuantifierPlain(maxRepeat, s, close, q, z, after);
    GroupChained(maxRepeat, s, |x|, close, before, body, after);
    TextAround(x, Times(p, k), z, before, body, after, Then(before, Then(body, after)));
  }

  /** The body of an unskipped group of plain text: the quantifier's error,
      or between its bounds many copies of the text. */
  lemma BodyOnly(maxRepeat: nat, s: string, open: nat, close: nat, q: Option<Quantifier>, p: string, body: Effect)
    returns (k: nat)
    requires open < close < |s| && !IsSkippedGroup(s, open) && s[open + 1..close] == p && PlainText(p)
    requires BodyEffect(maxRepeat, s, open, close, q, body)
    ensures RepeatRange(q).Failure? ==> body == Raise(RepeatRange(q).error)
    ensures RepeatRange(q).Success? ==>
              RepeatRange(q).value.0 <= k <= RepeatRange(q).value.1 && body == Effect(Times(p, k), None)
  {
    match RepeatRange(q)
    case Failure(e) =>
      k := 0;
    case Success(range) =>
      assert Repeats(maxRepeat, p, range.0, range.1, body);
      k :| range.0 <= k <= range.1 && RepeatEffect(maxRepeat, p, k, body);
      RepeatPlain(maxRepeat, p, k, body);
  }

  /** The body of an unskipped group of plain text can be each count of
      copies between the quantifier's bounds. */
  lemma BodyRepeats(maxRepeat: nat, s: string, open: nat, close: nat, q: Option<Quantifier>, p: string, k: nat)
    requires open < close < |s| && !IsSkippedGroup(s, open) && s[open + 1..close] == p && PlainText(p)
    requires RepeatRange(q).Success? && RepeatRange(q).value.0 <= k <= RepeatRange(q).value.1
    ensures BodyEffect(maxRepeat, s, open, close, q, Effect(Times(p, k), None))
  {
    RepeatPlain(maxRepeat, p, k, Effect(Times(p, k), None));
  }

  lemma TextAround(x: string, y: string, z: string, before: Effect, body: Effect, after: Effect, eff: Effect)
    requires before == Effect(x, None) && body == Effect(y, None) && after == Effect(z, None)
    requires eff == Then(before, Then(body, after))
    ensures eff == Effect(x + y + z, None)
  {
  }

  /** The plain text after a group's quantifier, or nothing when the
      quantifier ends the pattern. */
  lemma AfterQuantifierPlain(maxRepeat: nat, s: string, close: nat, q: Option<Quantifier>, z: string, after: Effect)
    requires q.Some? && close + 1 + q.value.chars <= |s| && s[close + 1 + q.value.chars..] == z && PlainText(z)
    ensures AfterEffect(maxRepeat, s, close, q, after) <==> after == Effect(z, None)
  {
    assert |s| - 1 > close + q.value.chars <==> |z| > 0;
    PlainPiece(maxRepeat, z, after);
  }

  /** A `(` that nothing closes: `brackets[1]` raises IndexError before
      anything is appended. */
  lemma UnclosedGroupRaises(maxRepeat: nat, s: string, eff: Effect)
    requires '(' in s && ')' !in s && '\\' !in s
    ensures PatternEffect(maxRepeat, s, eff) <==> eff == Raise(IndexError)
  {
    var i :| 0 <= i < |s| && s[i] == '(';
    assert Prev(s, i) in s;
    assert Unescaped(s, i, '(');
  }

  /** A bracket list that nothing closes: `str.index(']')` raises
      ValueError. */
  lemma MissingCloseBracketPattern(maxRepeat: nat, s: string, eff: Effect)
    requires '[' in s && ']' !in s && '(' !in s
    ensures PatternEffect(maxRepeat, s, eff) <==> eff == Raise(ValueError)
  {
    assert |OuterBrackets(s)| == 0;
    assert FindFrom(s, ']', 0) == None;
    if eff == Raise(ValueError) {
      assert SplitOutcome(maxRepeat, s, Failure(ValueError)) && eff == Settle(Failure(ValueError));
    }
  }

  /** The bracket list `[c]` at the very start of a run: the split handles
      the text before it and the list only when something precedes the `[`,
      so the list is dropped and nothing is emitted. */
  lemma LeadingBracketPattern(maxRepeat: nat, c: string, eff: Effect)
    requires ']' !in c && '(' !in c
    ensures PatternEffect(maxRepeat, "[" + c + "]", eff) <==> eff == Nothing
  {
    var s := "[" + c + "]";
    var close := |c| + 1;
    assert s[0] == '[';
    assert FindFrom(s, '[', 0) == Some(0);
    forall j | 0 <= j < close
      ensures s[j] != ']'
    {
      if j > 0 {
        assert s[j] == c[j - 1];
      }
    }
    FirstClose(s, 0, close);
    forall j | 0 <= j < |s|
      ensures s[j] != '('
    {
      if 0 < j < close {
        assert s[j] == c[j - 1];
      }
    }
    assert |OuterBrackets(s)| == 0;
    if PatternEffect(maxRepeat, s, eff) {
      var r :| SplitOutcome(maxRepeat, s, r) && eff == Settle(r);
      assert SplitTail(maxRepeat, s, close, r);
    }
    if eff == Nothing {
      assert SplitTail(maxRepeat, s, close, Success([]));
      assert SplitOutcome(maxRepeat, s, Success([])) && eff == Settle(Success([]));
    }
  }

  /** One character drawn from `pool` after `prefix`, or IndexError when the
      pool is empty. */
  ghost predicate OneDraw(pool: string, prefix: string, r: Result<string>)
  {
    (|pool| == 0 && r == Failure(IndexError)) || (exists ch :: ch in pool && r == Success(prefix + [ch]))
  }

  /** A walk made of one token that draws exactly once. */
  lemma SingleDrawWalk(maxRepeat: nat, b: string, t: Token, r: Result<string>)
    requires |b| > 0 && TokenAt(maxRepeat, b, 0) == Success(t) && t.lo == 1 && t.hi == 1 && t.next == |b|
    ensures WalkOutcome(maxRepeat, b, 0, r) <==> OneDraw(t.pool, [], r)
  {
    if r.Success? {
      var v := r.value;
      SingleDrawEmits(maxRepeat, b, t, v);
      if |v| == 1 && v[0] in t.pool {
        assert v == [] + [v[0]];
      }
      if ch :| ch in t.pool && r == Success([] + [ch]) {
        assert v == [ch];
      }
    }
  }

  lemma SingleDrawEmits(maxRepeat: nat, b: string, t: Token, v: string)
    requires |b| > 0 && TokenAt(maxRepeat, b, 0) == Success(t) && t.lo == 1 && t.hi == 1 && t.next == |b|
    ensures WalkOutcome(maxRepeat, b, 0, Success(v)) <==> |v| == 1 && v[0] in t.pool
  {
    if WalkOutcome(maxRepeat, b, 0, Success(v)) {
      var j :| 0 <= j <= |v| && Emits(t, v[..j]) && WalkOutcome(maxRepeat, b, t.next, Success(v[j..]));
      assert v[j..] == [];
      assert v[..j] == v;
    }
    if |v| == 1 && v[0] in t.pool {
      assert v[..1] == v && v[1..] == [];
      assert Emits(t, v[..1]) && WalkOutcome(maxRepeat, b, t.next, Success(v[1..]));
    }
  }

  /** `s` is plain text up to `open`, where a bracket list starts whose `]`
      at `close` is the first one of `s` and its last character. */
  ghost predicate BracketShape(s: string, open: nat, close: nat)
  {
    BracketSplit(s, open, close) && PlainText(s[..open]) && s[open] == '['
  }

  /** The first `[` of `s` is at `open`, after its first character, and its
      first `]` is at `close`, its last character. */
  ghost predicate BracketSplit(s: string, open: nat, close: nat)
  {
    0 < open < close && close + 1 == |s| && FindFrom(s, '[', 0) == Some(open) && FindFrom(s, ']', 0) == Some(close)
  }

  /** Where the bracket list lies in `x[c]`. */
  lemma BracketFrame(x: string, c: string)
    requires PlainText(x) && |x| > 0 && ']' !in x && |c| > 0 && ']' !in c
    ensures var s := x + "[" + c + "]"; var close := |x| + |c| + 1;
            && BracketShape(s, |x|, close) && s[..|x|] == x
            && Slice(s, |x|, close + 1) == "[" + c + "]"
  {
    var s := x + "[" + c + "]";
    var close := |x| + |c| + 1;
    assert s[|x|] == '[';
    forall j | 0 <= j < |x|
      ensures s[j] != '[' && s[j] != ']'
    {
      assert s[j] == x[j];
    }
    forall j | |x| < j < close
      ensures s[j] != ']'
    {
      assert s[j] == c[j - |x| - 1];
    }
    FirstClose(s, 0, close);
    assert s[..|x|] == x;
    assert Slice(s, |x|, close + 1) == "[" + c + "]";
  }

  /** The list `[c]` alone is one token drawing once from its collection. */
  lemma BracketTokenFrame(maxRepeat: nat, c: string)
    requires |c| > 0 && ']' !in c
    ensures TokenAt(maxRepeat, "[" + c + "]", 0) == Success(Token(ClassOf(c), 1, 1, |c| + 2))
  {
    var b := "[" + c + "]";
    forall j | 0 < j < |c| + 1
      ensures b[j] != ']'
    {
      assert b[j] == c[j - 1];
    }
    assert b[1..|c| + 1] == c;
    BracketDrawsOne(maxRepeat, b, 0, |c| + 1);
  }

  /** A bracket list after plain text: the text, then one character drawn
      from the list's collection (IndexError when it is empty). */
  lemma BracketAfterText(maxRepeat: nat, x: string, c: string, r: Result<string>)
    requires PlainText(x) && |x| > 0 && ']' !in x && |c| > 0 && ']' !in c
    ensures SplitOutcome(maxRepeat, x + "[" + c + "]", r) <==> OneDraw(ClassOf(c), x, r)
  {
    BracketFrame(x, c);
    BracketListAfter(maxRepeat, x + "[" + c + "]", |x|, |x| + |c| + 1, c, r);
  }

  /** A list `[c]` closing a text of that shape draws once after the text. */
  lemma BracketListAfter(maxRepeat: nat, s: string, open: nat, close: nat, c: string, r: Result<string>)
    requires BracketShape(s, open, close) && Slice(s, open, close + 1) == "[" + c + "]"
    requires |c| > 0 && ']' !in c
    ensures SplitOutcome(maxRepeat, s, r) <==> OneDraw(ClassOf(c), s[..open], r)
  {
    BracketTokenFrame(maxRepeat, c);
    BracketAfterShape(maxRepeat, s, open, close, Token(ClassOf(c), 1, 1, |c| + 2), r);
  }

  /** The same, for any text of that shape. */
  lemma BracketAfterShape(maxRepeat: nat, s: string, open: nat, close: nat, t: Token, r: Result<string>)
    requires BracketShape(s, open, close)
    requires TokenAt(maxRepeat, Slice(s, open, close + 1), 0) == Success(t)
    requires t.lo == 1 && t.hi == 1 && t.next == close + 1 - open
    ensures SplitOutcome(maxRepeat, s, r) <==> OneDraw(t.pool, s[..open], r)
  {
    if SplitOutcome(maxRepeat, s, r) {
      DrawAfterTextOnly(maxRepeat, s, open, close, t, r);
    }
    if OneDraw(t.pool, s[..open], r) {
      DrawAfterTextAll(maxRepeat, s, open, close, t, r);
    }
  }

  /** A list that draws once, after plain text: every split outcome is the
      text followed by one draw ... */
  lemma DrawAfterTextOnly(maxRepeat: nat, s: string, open: nat, close: nat, t: Token, r: Result<string>)
    requires BracketShape(s, open, close) && SplitOutcome(maxRepeat, s, r)
    requires TokenAt(maxRepeat, Slice(s, open, close + 1), 0) == Success(t)
    requires t.lo == 1 && t.hi == 1 && t.next == close + 1 - open
    ensures OneDraw(t.pool, s[..open], r)
  {
    var r2 := SplitAfterTextOnly(maxRepeat, s, open, close, r);
    SingleDrawWalk(maxRepeat, Slice(s, open, close + 1), t, r2);
    DrawAfter(t.pool, s[..open], r2);
  }

  /** ... and every such draw is a split outcome. */
  lemma DrawAfterTextAll(maxRepeat: nat, s: string, open: nat, close: nat, t: Token, r: Result<string>)
    requires BracketShape(s, open, close) && OneDraw(t.pool, s[..open], r)
    requires TokenAt(maxRepeat, Slice(s, open, close + 1), 0) == Success(t)
    requires t.lo == 1 && t.hi == 1 && t.next == close + 1 - open
    ensures SplitOutcome(maxRepeat, s, r)
  {
    var r2 := DrawBefore(t.pool, s[..open], r);
    SingleDrawWalk(maxRepeat, Slice(s, open, close + 1), t, r2);
    SplitAfterTextAll(maxRepeat, s, open, close, r2);
  }

  /** `s` is the plain text `x`, then the list `[c]` closed at `close` by
      the first `]` of `s`, then the non-empty rest `t`. */
  ghost predicate ListShape(s: string, x: string, c: string, t: string, close: nat)
  {
    && |x| > 0 && |c| > 0 && close == |x| + |c| + 1 && close + 1 < |s|
    && PlainText(x) && ']' !in c && s[|x|] == '['
    && FindFrom(s, '[', 0) == Some(|x|) && FindFrom(s, ']', 0) == Some(close)
    && s[..|x|] == x && Slice(s, |x|, close + 1) == "[" + c + "]" && s[close + 1..] == t
  }

  /** Where the list and the rest lie in `x[c]t`. */
  lemma ListFrame(x: string, c: string, t: string)
    requires PlainText(x) && |x| > 0 && ']' !in x && |c| > 0 && ']' !in c && |t| > 0
    ensures ListShape(x + "[" + c + "]" + t, x, c, t, |x| + |c| + 1)
  {
    var s := x + "[" + c + "]" + t;
    var close := |x| + |c| + 1;
    assert s[|x|] == '[' && s[close] == ']';
    forall j | 0 <= j < |x|
      ensures s[j] != '[' && s[j] != ']'
    {
      assert s[j] == x[j];
    }
    forall j | |x| < j < close
      ensures s[j] != ']'
    {
      assert s[j] == c[j - |x| - 1];
    }
    FirstClose(s, 0, close);
    assert s[..|x|] == x;
    assert Slice(s, |x|, close + 1) == "[" + c + "]";
    assert s[close + 1..] == t;
  }

  /** A list after plain text with more text after it: the split emits the
      text, then one character drawn from the list's collection, and then
      splits the rest on its own. Whatever follows the `]`, a quantifier
      included, never applies to the list: the list always draws once. */
  lemma ListThenRest(maxRepeat: nat, x: string, c: string, t: string, r: Result<string>)
    requires PlainText(x) && |x| > 0 && ']' !in x && |c| > 0 && ']' !in c && |t| > 0
    ensures SplitOutcome(maxRepeat, x + "[" + c + "]" + t, r) <==>
            exists r2, r3 :: OneDraw(ClassOf(c), x, r2) && (r2.Success? ==> SplitOutcome(maxRepeat, t, r3)) && r == Chain(r2, r3)
  {
    ListFrame(x, c, t);
    ListRestEffect(maxRepeat, x + "[" + c + "]" + t, x, c, t, |x| + |c| + 1, r);
  }

  lemma ListRestEffect(maxRepeat: nat, s: string, x: string, c: string, t: string, close: nat, r: Result<string>)
    requires ListShape(s, x, c, t, close)
    ensures SplitOutcome(maxRepeat, s, r) <==>
            exists r2, r3 :: OneDraw(ClassOf(c), x, r2) && (r2.Success? ==> SplitOutcome(maxRepeat, t, r3)) && r == Chain(r2, r3)
  {
    if SplitOutcome(maxRepeat, s, r) {
      var r2, r3 := ListRestOnly(maxRepeat, s, x, c, t, close, r);
    }
    if r2, r3 :| OneDraw(ClassOf(c), x, r2) && (r2.Success? ==> SplitOutcome(maxRepeat, t, r3)) && r == Chain(r2, r3) {
      ListRestAll(maxRepeat, s, x, c, t, close, r2, r3);
    }
  }

  lemma ListRestOnly(maxRepeat: nat, s: string, x: string, c: string, t: string, close: nat, r: Result<string>)
    returns (r2: Result<string>, r3: Result<string>)
    requires ListShape(s, x, c, t, close) && SplitOutcome(maxRepeat, s, r)
    ensures OneDraw(ClassOf(c), x, r2) && (r2.Success? ==> SplitOutcome(maxRepeat, t, r3)) && r == Chain(r2, r3)
  {
    var r1, w;
    r1, w, r3 := SplitParts(maxRepeat, s, |x|, close, r);
    RegularPlain(maxRepeat, x, r1);
    ListDraw(maxRepeat, s, |x|, close, c, w);
    DrawAfter(ClassOf(c), x, w);
    r2 := Prepend(x, w);
    ChainPrepend(x, w, r3);
  }

  lemma ListRestAll(maxRepeat: nat, s: string, x: string, c: string, t: string, close: nat, r2: Result<string>, r3: Result<string>)
    requires ListShape(s, x, c, t, close)
    requires OneDraw(ClassOf(c), x, r2) && (r2.Success? ==> SplitOutcome(maxRepeat, t, r3))
    ensures SplitOutcome(maxRepeat, s, Chain(r2, r3))
  {
    var w := DrawBefore(ClassOf(c), x, r2);
    ListDraw(maxRepeat, s, |x|, close, c, w);
    RegularPlain(maxRepeat, x, Success(x));
    SplitChained(maxRepeat, s, |x|, close, Success(x), w, r3);
    ChainPrepend(x, w, r3);
  }

  /** The list `[c]` from `open` to `close`, walked alone, draws once. */
  lemma ListDraw(maxRepeat: nat, s: string, open: nat, close: nat, c: string, w: Result<string>)
    requires open < close < |s| && s[open] == '[' && Slice(s, open, close + 1) == "[" + c + "]"
    requires |c| > 0 && ']' !in c
    ensures RegularOutcome(maxRepeat, Slice(s, open, close + 1), w) <==> OneDraw(ClassOf(c), [], w)
  {
    ListRun(maxRepeat, s, open, close, w);
    BracketTokenFrame(maxRepeat, c);
    SingleDrawWalk(maxRepeat, "[" + c + "]", Token(ClassOf(c), 1, 1, |c| + 2), w);
  }

  /** The text, then the list's outcome, then the rest's. */
  lemma ChainPrepend(x: string, w: Result<string>, r3: Result<string>)
    ensures Chain(Success(x), Chain(w, r3)) == Chain(Prepend(x, w), r3)
  {
    if w.Success? && r3.Success? {
      assert x + (w.value + r3.value) == (x + w.value) + r3.value;
    }
  }

  /** A quantifier after a list that follows text, such as `a[b]{2}`: the
      split cuts right after the `]`, so the list draws once and the
      quantifier is emitted as the literal text `{2}`. Here the rest is `{`
      followed by any plain text `d`. */
  lemma QuantifierAfterListIsText(maxRepeat: nat, x: string, c: string, d: string, r: Result<string>)
    requires PlainText(x) && |x| > 0 && ']' !in x && |c| > 0 && ']' !in c && PlainText(d) && |d| > 0
    ensures SplitOutcome(maxRepeat, x + "[" + c + "]" + ("{" + d), r) <==>
            exists r2 :: OneDraw(ClassOf(c), x, r2) && r == Chain(r2, Success("{" + d))
  {
    var t := "{" + d;
    ListThenRest(maxRepeat, x, c, t, r);
    if SplitOutcome(maxRepeat, x + "[" + c + "]" + t, r) {
      var r2, r3 :| OneDraw(ClassOf(c), x, r2) && (r2.Success? ==> SplitOutcome(maxRepeat, t, r3)) && r == Chain(r2, r3);
      if r2.Success? {
        BraceTextSplit(maxRepeat, d, r3);
      }
    }
    if r2 :| OneDraw(ClassOf(c), x, r2) && r == Chain(r2, Success(t)) {
      BraceTextSplit(maxRepeat, d, Success(t));
      assert (r2.Success? ==> SplitOutcome(maxRepeat, t, Success(t))) && r == Chain(r2, Success(t));
    }
  }

  /** `{` followed by plain text is split to exactly itself: at the start of
      a run the `{` is a literal. */
  lemma BraceTextSplit(maxRepeat: nat, d: string, r: Result<string>)
    requires PlainText(d) && |d| > 0
    ensures SplitOutcome(maxRepeat, "{" + d, r) <==> r == Success("{" + d)
  {
    var s := "{" + d;
    forall k | 0 <= k < |s|
      ensures s[k] != '[' && s[k] != '|'
    {
      if k > 0 {
        assert s[k] == d[k - 1];
      }
    }
    SplitWithoutBracket(maxRepeat, s, r);
    BraceTextWalk(maxRepeat, d, r);
  }

  lemma BraceTextWalk(maxRepeat: nat, d: string, r: Result<string>)
    requires Plain(d) && |d| > 0
    ensures WalkOutcome(maxRepeat, "{" + d, 0, r) <==> r == Success("{" + d)
  {
    var s := "{" + d;
    assert s[1] == d[0];
    Unquantified(maxRepeat, s, 1);
    assert TokenAt(maxRepeat, s, 0) == Success(Token(['{'], 1, 1, 1));
    forall k | 1 <= k < |s|
      ensures IsPlainChar(s[k])
    {
      assert s[k] == d[k - 1];
    }
    SingleCharStep(maxRepeat, s, 0, '{', r);
    PlainWalk(maxRepeat, s, 1, r);
    assert s[1..] == d;
    if r.Success? && |r.value| >= 1 {
      PlainWalk(maxRepeat, s, 1, Success(r.value[1..]));
      assert r.value == [r.value[0]] + r.value[1..];
    }
  }

  /** Drawing after `x` is drawing alone with `x` put in front ... */
  lemma DrawAfter(pool: string, x: string, r2: Result<string>)
    requires OneDraw(pool, [], r2)
    ensures OneDraw(pool, x, Prepend(x, r2))
  {
    if r2.Success? {
      var ch :| ch in pool && r2 == Success([] + [ch]);
      assert [] + [ch] == [ch];
      assert Prepend(x, r2) == Success(x + [ch]);
    }
  }

  /** ... and every draw after `x` is one of those. */
  lemma DrawBefore(pool: string, x: string, r: Result<string>) returns (r2: Result<string>)
    requires OneDraw(pool, x, r)
    ensures OneDraw(pool, [], r2) && r == Prepend(x, r2)
  {
    if r.Failure? {
      r2 := r;
    } else {
      var ch :| ch in pool && r == Success(x + [ch]);
      r2 := Success([] + [ch]);
      assert [] + [ch] == [ch];
    }
  }

  /** Splitting plain text followed by a bracket list that ends the run:
      each outcome is the text in front of an outcome of the walk over the
      list ... */
  lemma SplitAfterTextOnly(maxRepeat: nat, s: string, open: nat, close: nat, r: Result<string>) returns (r2: Result<string>)
    requires BracketShape(s, open, close) && SplitOutcome(maxRepeat, s, r)
    ensures WalkOutcome(maxRepeat, Slice(s, open, close + 1), 0, r2) && r == Prepend(s[..open], r2)
  {
    var r1, r3;
    r1, r2, r3 := SplitParts(maxRepeat, s, open, close, r);
    TextThenList(maxRepeat, s, open, close, r, r1, r2, r3);
  }

  /** The parts of such a split: the text itself, the list's walk, nothing
      after it. */
  lemma TextThenList(maxRepeat: nat, s: string, open: nat, close: nat, r: Result<string>,
                     r1: Result<string>, r2: Result<string>, r3: Result<string>)
    requires BracketShape(s, open, close)
    requires RegularOutcome(maxRepeat, s[..open], r1)
    requires r1.Success? ==> RegularOutcome(maxRepeat, Slice(s, open, close + 1), r2)
    requires r1.Success? && r2.Success? ==> SplitTail(maxRepeat, s, close, r3)
    requires r == Chain(r1, Chain(r2, r3))
    ensures WalkOutcome(maxRepeat, Slice(s, open, close + 1), 0, r2) && r == Prepend(s[..open], r2)
  {
    RegularPlain(maxRepeat, s[..open], r1);
    if r2.Success? {
      LastTail(maxRepeat, s, close, r3);
    }
    ListRun(maxRepeat, s, open, close, r2);
    EndOfRun(s[..open], r2);
  }

  /** ... and each such outcome is one of the split's. */
  lemma SplitAfterTextAll(maxRepeat: nat, s: string, open: nat, close: nat, r2: Result<string>)
    requires BracketShape(s, open, close) && WalkOutcome(maxRepeat, Slice(s, open, close + 1), 0, r2)
    ensures SplitOutcome(maxRepeat, s, Prepend(s[..open], r2))
  {
    TextListPremises(maxRepeat, s, open, close, r2);
    TextListChained(maxRepeat, s, open, close, r2);
  }

  /** The parts of that split: the text, the list's walk and the empty
      rest are each possible. */
  lemma TextListPremises(maxRepeat: nat, s: string, open: nat, close: nat, r2: Result<string>)
    requires BracketShape(s, open, close) && WalkOutcome(maxRepeat, Slice(s, open, close + 1), 0, r2)
    ensures RegularOutcome(maxRepeat, s[..open], Success(s[..open]))
    ensures RegularOutcome(maxRepeat, Slice(s, open, close + 1), r2)
    ensures SplitTail(maxRepeat, s, close, Success([]))
  {
    RegularPlain(maxRepeat, s[..open], Success(s[..open]));
    ListRun(maxRepeat, s, open, close, r2);
    EmptyTail(maxRepeat, s, close);
  }

  /** Chaining those parts gives the text in front of the list's outcome. */
  lemma TextListChained(maxRepeat: nat, s: string, open: nat, close: nat, r2: Result<string>)
    requires BracketSplit(s, open, close)
    requires RegularOutcome(maxRepeat, s[..open], Success(s[..open]))
    requires RegularOutcome(maxRepeat, Slice(s, open, close + 1), r2)
    requires SplitTail(maxRepeat, s, close, Success([]))
    ensures SplitOutcome(maxRepeat, s, Prepend(s[..open], r2))
  {
    SplitChained(maxRepeat, s, open, close, Success(s[..open]), r2, Success([]));
    EndOfRun(s[..open], r2);
  }

  /** The list from `open` to the `]` at `close` is walked whole. */
  lemma ListRun(maxRepeat: nat, s: string, open: nat, close: nat, r: Result<string>)
    requires open < close < |s| && s[open] == '['
    ensures RegularOutcome(maxRepeat, Slice(s, open, close + 1), r) <==> WalkOutcome(maxRepeat, Slice(s, open, close + 1), 0, r)
  {
    RegularWithBracket(maxRepeat, Slice(s, open, close + 1), r);
  }

  /** A `]` that ends the text leaves nothing to split after it. */
  lemma LastTail(maxRepeat: nat, s: string, close: nat, r: Result<string>)
    requires close + 1 == |s| && SplitTail(maxRepeat, s, close, r)
    ensures r == Success([])
  {
  }

  lemma EmptyTail(maxRepeat: nat, s: string, close: nat)
    requires close + 1 == |s|
    ensures SplitTail(maxRepeat, s, close, Success([]))
  {
  }

  /** The three outcomes a split with text before its `[` is made of. */
  lemma SplitParts(maxRepeat: nat, s: string, open: nat, close: nat, r: Result<string>)
    returns (r1: Result<string>, r2: Result<string>, r3: Result<string>)
    requires FindFrom(s, '[', 0) == Some(open) && FindFrom(s, ']', 0) == Some(close) && open > 0
    requires SplitOutcome(maxRepeat, s, r)
    ensures RegularOutcome(maxRepeat, s[..open], r1)
    ensures r1.Success? ==> RegularOutcome(maxRepeat, Slice(s, open, close + 1), r2)
    ensures r1.Success? && r2.Success? ==> SplitTail(maxRepeat, s, close, r3)
    ensures r == Chain(r1, Chain(r2, r3))
  {
    r1, r2, r3 :|
      && RegularOutcome(maxRepeat, s[..open], r1)
      && (r1.Success? ==> RegularOutcome(maxRepeat, Slice(s, open, close + 1), r2))
      && (r1.Success? && r2.Success? ==> SplitTail(maxRepeat, s, close, r3))
      && r == Chain(r1, Chain(r2, r3));
  }

  /** A run holding a `[` is walked whole, even when it holds a `|`. */
  lemma RegularWithBracket(maxRepeat: nat, b: string, r: Result<string>)
    requires '[' in b
    ensures RegularOutcome(maxRepeat, b, r) <==> WalkOutcome(maxRepeat, b, 0, r)
  {
  }

  /** The text, then the list's outcome, then an empty rest. */
  lemma EndOfRun(x: string, r2: Result<string>)
    ensures Chain(Success(x), Chain(r2, Success([]))) == Prepend(x, r2)
  {
    if r2.Success? {
      assert r2.value + [] == r2.value;
    }
  }

  /** `x|y` of plain text: one of the two parts. */
  lemma AlternativesPattern(maxRepeat: nat, x: string, y: string, eff: Effect)
    requires PlainText(x) && PlainText(y)
    ensures PatternEffect(maxRepeat, x + "|" + y, eff) <==> eff == Effect(x, None) || eff == Effect(y, None)
  {
    var s := x + "|" + y;
    forall k | 0 <= k < |s|
      ensures s[k] != '(' && s[k] != '['
    {
      if k < |x| {
        assert s[k] == x[k];
      } else if k > |x| {
        assert s[k] == y[k - |x| - 1];
      }
    }
    assert |OuterBrackets(s)| == 0;
    assert FindFrom(s, '[', 0) == None;
    assert '|' !in x && '|' !in y;
    if PatternEffect(maxRepeat, s, eff) {
      var r :| SplitOutcome(maxRepeat, s, r) && eff == Settle(r);
      TwoAlternatives(maxRepeat, x, y, r);
    }
    if eff == Effect(x, None) || eff == Effect(y, None) {
      var r := Success(eff.appended);
      TwoAlternatives(maxRepeat, x, y, r);
      assert SplitOutcome(maxRepeat, s, r) && eff == Settle(r);
    }
  }

  /** `generate` drops the slashes around `/p/` and whatever follows the
      last slash. */
  lemma SlashesStripped(p: string, tail: string)
    requires '/' !in p && '/' !in tail
    ensures PatternOf("/" + p + "/" + tail) == Success(p)
  {
    var regex := "/" + p + "/" + tail;
    var last := |p| + 1;
    assert regex[last] == '/';
    assert regex[1..last] == p;
  }

  /** A regex with only its leading slash: the slice up to `rfind('/')`,
      which finds that same slash, is empty. */
  lemma LoneSlash(p: string)
    requires '/' !in p
    ensures PatternOf("/" + p) == Success([])
  {
    var regex := "/" + p;
    assert regex[0] == '/';
  }
}
