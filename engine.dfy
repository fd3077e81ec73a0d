/** The recursive driver of the generator: `process_regex_string` with its
    group handling, `split_regular_regex_on_square_brackets`, and the
    `Generator` object whose `result` accumulates what every call emits. */
module Engine {
  import opened Common
  import opened Quantifiers
  import opened Groups
  import opened Tokens

  /** What a call of `process_regex_string` leaves behind: the text it
      appended to `self.result` before it returned or raised, and the
      exception it raised, if any. */
  datatype Effect = Effect(appended: string, raised: Option<Error>)

  const Nothing: Effect := Effect([], None)

  function Raise(e: Error): Effect
  {
    Effect([], Some(e))
  }

  /** Running something with effect `a` and then, unless it raised,
      something with effect `b`. */
  function Then(a: Effect, b: Effect): Effect
  {
    if a.raised.Some? then a else Effect(a.appended + b.appended, b.raised)
  }

  /** `self.result += str(...)` of a value that was either computed or
      raised while being computed. */
  function Settle(r: Result<string>): Effect
  {
    match r
    case Success(w) => Effect(w, None)
    case Failure(e) => Raise(e)
  }

  /** A computation with outcome `a` followed, unless it raised, by one with
      outcome `b`, the values concatenated. */
  function Chain(a: Result<string>, b: Result<string>): Result<string>
  {
    if a.Failure? then a else Prepend(a.value, b)
  }

  /** The outcomes of `split_regular_regex_on_square_brackets`. A run without
      `[` is one regular run. Otherwise `str.index` looks for the first `[`
      and the first `]` (ValueError without one); only when the `[` is not
      the first character are the text before it and the slice from it to
      that `]` processed; then the text after the `]`, if any, is split
      again. */
  ghost predicate SplitOutcome(maxRepeat: nat, s: string, r: Result<string>)
    decreases |s|, 1
  {
    match FindFrom(s, '[', 0)
    case None => RegularOutcome(maxRepeat, s, r)
    case Some(open) =>
      match FindFrom(s, ']', 0)
      case None => r == Failure(ValueError)
      case Some(close) =>
        if open > 0 then
          exists r1, r2, r3 ::
            && RegularOutcome(maxRepeat, s[..open], r1)
            && (r1.Success? ==> RegularOutcome(maxRepeat, Slice(s, open, close + 1), r2))
            && (r1.Success? && r2.Success? ==> SplitTail(maxRepeat, s, close, r3))
            && r == Chain(r1, Chain(r2, r3))
        else
          SplitTail(maxRepeat, s, close, r)
  }

  /** The text after the `]` at `close`, split again when there is any. */
  ghost predicate SplitTail(maxRepeat: nat, s: string, close: nat, r: Result<string>)
    requires close < |s|
    decreases |s|, 0
  {
    if close < |s| - 1 then SplitOutcome(maxRepeat, s[close + 1..], r) else r == Success([])
  }

  /** The group opened at `open` is `(?:...)`, `(?=...)` or `(?!...)`, whose
      body is not processed. */
  predicate IsSkippedGroup(s: string, open: nat)
    requires open + 1 < |s|
  {
    s[open + 1] == '?' && open + 2 < |s| && (s[open + 2] == ':' || s[open + 2] == '=' || s[open + 2] == '!')
  }

  /** The effects `process_regex_string` can have on a pattern: a pattern
      without an unescaped `(` is split and its text appended; an unclosed
      group raises IndexError (it reads `brackets[1]`); otherwise the group
      found by `get_outer_brackets` is processed. */
  ghost predicate PatternEffect(maxRepeat: nat, s: string, eff: Effect)
    decreases |s|, 2, 0
  {
    var brackets := OuterBrackets(s);
    if |brackets| == 0 then
      exists r :: SplitOutcome(maxRepeat, s, r) && eff == Settle(r)
    else if |brackets| == 1 then
      eff == Raise(IndexError)
    else
      GroupEffect(maxRepeat, s, brackets[0], brackets[1], eff)
  }

  /** A pattern with a group from `open` to `close`: the quantifier after
      the `)` is read, the text before the group is processed, then the body
      (a drawn number of times, unless the group is skipped), then the text
      after the quantifier, if any. */
  ghost predicate GroupEffect(maxRepeat: nat, s: string, open: nat, close: nat, eff: Effect)
    requires open < close < |s|
    decreases |s|, 1, 0
  {
    var q := QuantifierAfter(maxRepeat, s, close + 1);
    exists before, body, after ::
      && (if open > 0 then PatternEffect(maxRepeat, s[..open], before) else before == Nothing)
      && (before.raised.None? ==> BodyEffect(maxRepeat, s, open, close, q, body))
      && (before.raised.None? && body.raised.None? ==> AfterEffect(maxRepeat, s, close, q, after))
      && eff == Then(before, Then(body, after))
  }

  /** The body of a group: nothing for a skipped group; otherwise the
      repeat count is drawn from the quantifier (or its exception raised)
      and the body processed that many times. */
  ghost predicate BodyEffect(maxRepeat: nat, s: string, open: nat, close: nat, q: Option<Quantifier>, eff: Effect)
    requires open < close < |s|
    decreases |s|, 0, 0
  {
    if IsSkippedGroup(s, open) then eff == Nothing
    else
      match RepeatRange(q)
      case Failure(e) => eff == Raise(e)
      case Success(range) => Repeats(maxRepeat, s[open + 1..close], range.0, range.1, eff)
  }

  /** Processing `body` some number of times between `lo` and `hi`. */
  ghost predicate Repeats(maxRepeat: nat, body: string, lo: nat, hi: nat, eff: Effect)
    decreases |body|, 4, 0
  {
    exists k :: lo <= k <= hi && RepeatEffect(maxRepeat, body, k, eff)
  }

  /** The text after a group and its quantifier: TypeError when the
      quantifier could not be read (`None["Chars"]`), otherwise the rest of
      the pattern, processed when there is any. */
  ghost predicate AfterEffect(maxRepeat: nat, s: string, close: nat, q: Option<Quantifier>, eff: Effect)
    requires close < |s|
    decreases |s|, 0, 0
  {
    match q
    case None => eff == Raise(TypeError)
    case Some(quantifier) =>
      if |s| - 1 > close + quantifier.chars then
        PatternEffect(maxRepeat, s[close + quantifier.chars + 1..], eff)
      else
        eff == Nothing
  }

  /** Processing `body` `k` times in a row, stopping at the first exception. */
  ghost predicate RepeatEffect(maxRepeat: nat, body: string, k: nat, eff: Effect)
    decreases |body|, 3, k
  {
    if k == 0 then eff == Nothing
    else
      exists first, last ::
        && RepeatEffect(maxRepeat, body, k - 1, first)
        && (first.raised.None? ==> PatternEffect(maxRepeat, body, last))
        && eff == Then(first, last)
  }

  /** The pattern `generate` hands to `process_regex_string`: IndexError for
      an empty regex (it reads `regex_string[0]`); for a regex starting with
      `/`, the text between that slash and the last one (`rfind`); otherwise
      the whole regex. */
  function PatternOf(regex: string): Result<string>
  {
    if |regex| == 0 then Failure(IndexError)
    else if regex[0] == '/' then Success(Slice(regex, 1, FindLast(regex, '/').value))
    else Success(regex)
  }

  /** Unfolding `SplitOutcome` for a `[` after the first character. */
  lemma SplitChained(maxRepeat: nat, s: string, open: nat, close: nat, r1: Result<string>, r2: Result<string>, r3: Result<string>)
    requires FindFrom(s, '[', 0) == Some(open) && FindFrom(s, ']', 0) == Some(close) && open > 0
    requires RegularOutcome(maxRepeat, s[..open], r1)
    requires r1.Success? ==> RegularOutcome(maxRepeat, Slice(s, open, close + 1), r2)
    requires r1.Success? && r2.Success? ==> SplitTail(maxRepeat, s, close, r3)
    ensures SplitOutcome(maxRepeat, s, Chain(r1, Chain(r2, r3)))
  {
  }

  /** Unfolding `GroupEffect` for the three effects of a group. */
  lemma GroupChained(maxRepeat: nat, s: string, open: nat, close: nat, before: Effect, body: Effect, after: Effect)
    requires open < close < |s|
    requires if open > 0 then PatternEffect(maxRepeat, s[..open], before) else before == Nothing
    requires before.raised.None? ==> BodyEffect(maxRepeat, s, open, close, QuantifierAfter(maxRepeat, s, close + 1), body)
    requires before.raised.None? && body.raised.None? ==>
               AfterEffect(maxRepeat, s, close, QuantifierAfter(maxRepeat, s, close + 1), after)
    ensures GroupEffect(maxRepeat, s, open, close, Then(before, Then(body, after)))
  {
  }

  /** Unfolding `RepeatEffect` for one more pass. */
  lemma RepeatChained(maxRepeat: nat, body: string, k: nat, first: Effect, last: Effect)
    requires RepeatEffect(maxRepeat, body, k, first)
    requires first.raised.None? ==> PatternEffect(maxRepeat, body, last)
    ensures RepeatEffect(maxRepeat, body, k + 1, Then(first, last))
  {
  }

  /** One more pass of the body, read off the growth of `result`. */
  lemma RepeatGrown(maxRepeat: nat, body: string, k: nat, start: string, done: string, now: string, raised: Option<Error>)
    requires start <= done <= now
    requires RepeatEffect(maxRepeat, body, k, Effect(done[|start|..], None))
    requires PatternEffect(maxRepeat, body, Effect(now[|done|..], raised))
    ensures RepeatEffect(maxRepeat, body, k + 1, Effect(now[|start|..], raised))
  {
    RepeatChained(maxRepeat, body, k, Effect(done[|start|..], None), Effect(now[|done|..], raised));
    ThenGrown(start, done, now, raised);
  }

  /** Once a pass raises, further passes change nothing. */
  lemma {:induction false} RaisedRepeatStays(maxRepeat: nat, body: string, j: nat, k: nat, eff: Effect)
    requires j <= k && RepeatEffect(maxRepeat, body, j, eff) && eff.raised.Some?
    ensures RepeatEffect(maxRepeat, body, k, eff)
    decreases k - j
  {
    if j < k {
      RepeatChained(maxRepeat, body, j, eff, eff);
      RaisedRepeatStays(maxRepeat, body, j + 1, k, eff);
    }
  }

  /** Growing `result` from `a` to `b` without raising and then from `b`
      to `c` is growing it from `a` to `c`. */
  lemma ThenGrown(a: string, b: string, c: string, raised: Option<Error>)
    requires a <= b <= c
    ensures Then(Effect(b[|a|..], None), Effect(c[|b|..], raised)) == Effect(c[|a|..], raised)
  {
    assert c[|a|..] == b[|a|..] + c[|b|..];
  }

  /** `split_regular_regex_on_square_brackets`. */
  method SplitRegularRegexOnSquareBrackets(maxRepeat: nat, s: string) returns (r: Result<string>)
    ensures SplitOutcome(maxRepeat, s, r)
    decreases |s|
  {
    if '[' in s {
      var opening := FindFrom(s, '[', 0);
      var closing := FindFrom(s, ']', 0);
      if closing.None? {
        return Failure(ValueError);
      }
      var open, close := opening.value, closing.value;
      var result: string := [];
      var r1: Result<string> := Success([]);
      var r2: Result<string> := Success([]);
      if open > 0 {
        r1 := ProcessRegularRegex(maxRepeat, s[..open]);
        if r1.Failure? {
          SplitChained(maxRepeat, s, open, close, r1, r2, r2);
          return r1;
        }
        r2 := ProcessRegularRegex(maxRepeat, Slice(s, open, close + 1));
        if r2.Failure? {
          SplitChained(maxRepeat, s, open, close, r1, r2, r2);
          assert Chain(r1, Chain(r2, r2)) == r2;
          return r2;
        }
        result := r1.value + r2.value;
      }
      var r3: Result<string> := Success([]);
      if close < |s| - 1 {
        r3 := SplitRegularRegexOnSquareBrackets(maxRepeat, s[close + 1..]);
      }
      assert SplitTail(maxRepeat, s, close, r3);
      if r3.Failure? {
        r := r3;
      } else {
        r := Success(result + r3.value);
      }
      if open > 0 {
        SplitChained(maxRepeat, s, open, close, r1, r2, r3);
        if r3.Success? {
          assert result + r3.value == r1.value + (r2.value + r3.value);
        }
        assert r == Chain(r1, Chain(r2, r3));
      } else if r3.Success? {
        assert result + r3.value == r3.value;
      }
    } else {
      r := ProcessRegularRegex(maxRepeat, s);
    }
  }

  /** The generator object: the text generated so far, never reset, and the
      bound used for `*` and `+`. */
  class Generator {
    var result: string
    const maxRepeat: nat

    constructor(maxRepeat: nat)
      ensures this.maxRepeat == maxRepeat && result == []
    {
      this.maxRepeat := maxRepeat;
      result := [];
    }

    /** `generate`: the pattern is processed and everything generated so
        far returned; an exception leaves in `result` what was appended
        before it. */
    method Generate(regex: string) returns (r: Result<string>)
      modifies this
      ensures PatternOf(regex).Failure? ==> r == PatternOf(regex) && result == old(result)
      ensures PatternOf(regex).Success? ==>
                && old(result) <= result
                && PatternEffect(maxRepeat, PatternOf(regex).value,
                                 Effect(result[|old(result)|..], if r.Success? then None else Some(r.error)))
      ensures r.Success? ==> r.value == result
    {
      if |regex| == 0 {
        return Failure(IndexError);
      }
      var pattern := regex;
      if regex[0] == '/' {
        var lastSlash := FindLast(regex, '/');
        pattern := Slice(regex, 1, lastSlash.value);
      }
      var raised := ProcessRegexString(pattern);
      if raised.Some? {
        return Failure(raised.value);
      }
      return Success(result);
    }

    /** `process_regex_string`. */
    method ProcessRegexString(s: string) returns (raised: Option<Error>)
      modifies this
      ensures old(result) <= result
      ensures PatternEffect(maxRepeat, s, Effect(result[|old(result)|..], raised))
      decreases |s|, 2, 0
    {
      var brackets := GetOuterBrackets(s);
      if |brackets| == 0 {
        var part := SplitRegularRegexOnSquareBrackets(maxRepeat, s);
        if part.Failure? {
          assert result[|old(result)|..] == [];
          return Some(part.error);
        }
        result := result + part.value;
        assert result[|old(result)|..] == part.value;
        return None;
      }
      if |brackets| == 1 {
        assert result[|old(result)|..] == [];
        return Some(IndexError);
      }
      raised := ProcessGroup(s, brackets[0], brackets[1]);
    }

    /** The branch of `process_regex_string` for a pattern with a group
        from `open` to `close`. */
    method ProcessGroup(s: string, open: nat, close: nat) returns (raised: Option<Error>)
      requires open < close < |s|
      modifies this
      ensures old(result) <= result
      ensures GroupEffect(maxRepeat, s, open, close, Effect(result[|old(result)|..], raised))
      decreases |s|, 1, 0
    {
      ghost var start := result;
      var quantifier: Option<Quantifier>;
      if close < |s| - 1 {
        quantifier := CheckForQuantifier(maxRepeat, s, close + 1);
      } else {
        quantifier := Some(Quantifier(Count(1), Count(1), 0));
      }
      assert quantifier == QuantifierAfter(maxRepeat, s, close + 1);
      if open > 0 {
        raised := ProcessRegexString(s[..open]);
        if raised.Some? {
          var failed := Effect(result[|start|..], raised);
          GroupChained(maxRepeat, s, open, close, failed, failed, failed);
          return;
        }
      }
      ghost var middle := result;
      ghost var before := Effect(middle[|start|..], None);
      assert open == 0 ==> before == Nothing;
      raised := ProcessGroupBody(s, open, close, quantifier);
      ghost var rest := result;
      ghost var body := Effect(rest[|middle|..], raised);
      if raised.Some? {
        GroupChained(maxRepeat, s, open, close, before, body, body);
        ThenGrown(start, middle, rest, raised);
        return;
      }
      raised := ProcessGroupTail(s, close, quantifier);
      GroupChained(maxRepeat, s, open, close, before, body, Effect(result[|rest|..], raised));
      ThenGrown(middle, rest, result, raised);
      ThenGrown(start, middle, result, raised);
    }

    /** The text after the group and its quantifier, processed when there
        is any. */
    method ProcessGroupTail(s: string, close: nat, quantifier: Option<Quantifier>) returns (raised: Option<Error>)
      requires close < |s|
      modifies this
      ensures old(result) <= result
      ensures AfterEffect(maxRepeat, s, close, quantifier, Effect(result[|old(result)|..], raised))
      decreases |s|, 0, 0
    {
      if quantifier.None? {
        assert result[|old(result)|..] == [];
        return Some(TypeError);
      }
      var chars := quantifier.value.chars;
      if |s| - 1 > close + chars {
        raised := ProcessRegexString(s[close + chars + 1..]);
      } else {
        assert result[|old(result)|..] == [];
        raised := None;
      }
    }

    /** The part of `process_regex_string` that draws the repeat count of a
        group and processes its body, skipped for `(?:`, `(?=` and `(?!`. */
    method ProcessGroupBody(s: string, open: nat, close: nat, quantifier: Option<Quantifier>) returns (raised: Option<Error>)
      requires open < close < |s|
      modifies this
      ensures old(result) <= result
      ensures BodyEffect(maxRepeat, s, open, close, quantifier, Effect(result[|old(result)|..], raised))
      decreases |s|, 0, 0
    {
      if IsSkippedGroup(s, open) {
        assert result[|old(result)|..] == [];
        return None;
      }
      var amount := DrawRepeatCount(quantifier);
      if amount.Failure? {
        assert result[|old(result)|..] == [];
        return Some(amount.error);
      }
      var range := RepeatRange(quantifier).value;
      raised := RepeatGroup(s[open + 1..close], amount.value);
      assert Repeats(maxRepeat, s[open + 1..close], range.0, range.1, Effect(result[|old(result)|..], raised));
    }

    /** The `for i in range(random_amount)` loop over the group body. */
    method RepeatGroup(body: string, amount: nat) returns (raised: Option<Error>)
      modifies this
      ensures old(result) <= result
      ensures RepeatEffect(maxRepeat, body, amount, Effect(result[|old(result)|..], raised))
      decreases |body|, 3, 0
    {
      ghost var start := result;
      raised := None;
      var i := 0;
      while i < amount && raised.None?
        invariant i <= amount && start <= result
        invariant RepeatEffect(maxRepeat, body, i, Effect(result[|start|..], raised))
      {
        raised := RepeatPass(body, start, i);
        i := i + 1;
      }
      if raised.Some? {
        RaisedRepeatStays(maxRepeat, body, i, amount, Effect(result[|start|..], raised));
      }
    }

    /** One pass of that loop: the body processed once more after `i`
        passes that did not raise. */
    method RepeatPass(body: string, ghost start: string, ghost i: nat) returns (raised: Option<Error>)
      requires start <= result && RepeatEffect(maxRepeat, body, i, Effect(result[|start|..], None))
      modifies this
      ensures start <= result && RepeatEffect(maxRepeat, body, i + 1, Effect(result[|start|..], raised))
      decreases |body|, 2, 1
    {
      ghost var done := result;
      raised := ProcessRegexString(body);
      RepeatGrown(maxRepeat, body, i, start, done, result, raised);
    }
  }
}
