/** The walk over a run without groups (`process_regular_regex`): alternation
    first, then one token at a time, each drawing a repeat count and that
    many characters. */
module Tokens {
  import opened Common
  import opened Alphabet
  import opened Quantifiers
  import opened CharClass
  import opened Alternation

  /** What one pass of the walk does at a position: draw a count between `lo`
      and `hi`, then that many characters from `pool`, and continue at
      `next`. A token that emits nothing whatever the count (an anchor, or an
      escape of a character with no meaning) has `lo == hi == 0`. */
  datatype Token = Token(pool: string, lo: nat, hi: nat, next: nat)

  /** The quantifier read after a token's own characters: the one at `at`,
      or a single repetition taking no characters when `at` is past the end. */
  function QuantifierAfter(maxRepeat: nat, s: string, at: nat): Option<Quantifier>
  {
    if at < |s| then QuantifierAt(maxRepeat, s, at) else Some(Quantifier(Count(1), Count(1), 0))
  }

  /** The token at position `i`, or the exception raised while reading it
      (before any character is drawn). */
  function TokenAt(maxRepeat: nat, s: string, i: nat): (r: Result<Token>)
    requires i < |s|
    ensures r.Success? ==> i < r.value.next && r.value.lo <= r.value.hi
  {
    if s[i] == '\\' then EscapeToken(maxRepeat, s, i)
    else if s[i] == '[' then BracketToken(maxRepeat, s, i)
    else if s[i] == '.' then DotToken(maxRepeat, s, i)
    else if s[i] == '^' || s[i] == '$' then Success(Token([], 0, 0, i + 1))
    else LiteralToken(maxRepeat, s, i)
  }

  /** A backslash: the quantifier after the escaped character is read first,
      then the escaped character itself (IndexError when the backslash ends
      the run); an escape with no meaning emits nothing. */
  function EscapeToken(maxRepeat: nat, s: string, i: nat): (r: Result<Token>)
    requires i < |s|
    ensures r.Success? ==> i < r.value.next && r.value.lo <= r.value.hi
  {
    var q := QuantifierAfter(maxRepeat, s, i + 2);
    var range :- RepeatRange(q);
    if i + 1 == |s| then Failure(IndexError)
    else if IsMeaningfulEscape(s[i + 1]) then Success(Token(EscapeSet(s[i + 1]), range.0, range.1, i + 2 + q.value.chars))
    else Success(Token([], 0, 0, i + 2 + q.value.chars))
  }

  /** An opening square bracket: the collection of the text up to the first
      `]` (IndexError when that text is empty), TypeError when there is no
      `]`, then the quantifier after it. */
  function BracketToken(maxRepeat: nat, s: string, i: nat): (r: Result<Token>)
    requires i < |s|
    ensures r.Success? ==> i < r.value.next && r.value.lo <= r.value.hi
  {
    var closing := FindFrom(s, ']', i + 1);
    var content := if closing.Some? then s[i + 1..closing.value] else s[i + 1..];
    if |content| == 0 then Failure(IndexError)
    else if closing.None? then Failure(TypeError)
    else QuantifiedToken(maxRepeat, s, closing.value + 1, ClassOf(content), closing.value + 1)
  }

  /** A dot: any table character but newline; the walk then continues one
      character further than the dot and its quantifier. */
  function DotToken(maxRepeat: nat, s: string, i: nat): (r: Result<Token>)
    requires i < |s|
    ensures r.Success? ==> i < r.value.next && r.value.lo <= r.value.hi
  {
    QuantifiedToken(maxRepeat, s, i + 1, DotPool, i + 2)
  }

  /** Any other character stands for itself. */
  function LiteralToken(maxRepeat: nat, s: string, i: nat): (r: Result<Token>)
    requires i < |s|
    ensures r.Success? ==> i < r.value.next && r.value.lo <= r.value.hi
  {
    QuantifiedToken(maxRepeat, s, i + 1, [s[i]], i + 1)
  }

  /** A token drawing from `pool` whose quantifier is read at `at` (ValueError
      or TypeError from a malformed block); the walk resumes at `resume` plus
      the quantifier's length. */
  function QuantifiedToken(maxRepeat: nat, s: string, at: nat, pool: string, resume: nat): (r: Result<Token>)
    ensures r.Success? ==> resume <= r.value.next && r.value.lo <= r.value.hi
  {
    var q := QuantifierAfter(maxRepeat, s, at);
    var range :- RepeatRange(q);
    Success(Token(pool, range.0, range.1, resume + q.value.chars))
  }

  /** `e` is something the token can emit: a drawn count of characters, each
      from the pool. */
  ghost predicate Emits(t: Token, e: string)
  {
    t.lo <= |e| <= t.hi && forall k :: 0 <= k < |e| ==> e[k] in t.pool
  }

  /** A draw from an empty pool can be attempted: IndexError is possible. */
  predicate DrawFails(t: Token)
  {
    |t.pool| == 0 && t.hi >= 1
  }

  /** Some count completes without an exception. */
  predicate CanEmit(t: Token)
  {
    |t.pool| > 0 || t.lo == 0
  }

  lemma EmitsCanEmit(t: Token, e: string)
    requires Emits(t, e)
    ensures CanEmit(t)
  {
    assert |e| > 0 ==> e[0] in t.pool;
  }

  /** The outcomes the walk can reach from position `i`: each token either
      raises while being read, raises on a draw from an empty pool, or emits
      its characters in front of the rest of the walk. */
  ghost predicate WalkOutcome(maxRepeat: nat, s: string, i: nat, r: Result<string>)
    decreases |s| - i
  {
    if i >= |s| then r == Success([])
    else
      match TokenAt(maxRepeat, s, i)
      case Failure(e) => r == Failure(e)
      case Success(t) =>
        if r.Failure? then
          (DrawFails(t) && r.error == IndexError) || (CanEmit(t) && WalkOutcome(maxRepeat, s, t.next, r))
        else
          exists j :: 0 <= j <= |r.value| && Emits(t, r.value[..j]) && WalkOutcome(maxRepeat, s, t.next, Success(r.value[j..]))
  }

  /** The outcomes of `process_regular_regex`: a run holding `|` and no `[`
      is first cut down to one of its parts. */
  ghost predicate RegularOutcome(maxRepeat: nat, s: string, r: Result<string>)
  {
    if '|' in s && '[' !in s then
      exists a, b :: Delimits(s, a, b) && WalkOutcome(maxRepeat, s[a..b], 0, r)
    else
      WalkOutcome(maxRepeat, s, 0, r)
  }

  /** Emitting `e` from the token at `i` and then reaching `rest` is a walk
      outcome from `i`. */
  lemma WalkPrepend(maxRepeat: nat, s: string, i: nat, t: Token, e: string, rest: Result<string>)
    requires i < |s| && TokenAt(maxRepeat, s, i) == Success(t) && Emits(t, e)
    requires WalkOutcome(maxRepeat, s, t.next, rest)
    ensures WalkOutcome(maxRepeat, s, i, Prepend(e, rest))
  {
    match rest
    case Success(v) =>
      assert (e + v)[..|e|] == e && (e + v)[|e|..] == v;
    case Failure(_) =>
      EmitsCanEmit(t, e);
  }

  /** The loop invariant of the walk carries over one token: what is emitted
      joins the prefix in front of every outcome of the rest. */
  lemma ExtendWalkPrefix(maxRepeat: nat, s: string, i: nat, t: Token, prefix: string, e: string)
    requires i < |s| && TokenAt(maxRepeat, s, i) == Success(t) && Emits(t, e)
    requires forall rest :: WalkOutcome(maxRepeat, s, i, rest) ==> WalkOutcome(maxRepeat, s, 0, Prepend(prefix, rest))
    ensures forall rest :: WalkOutcome(maxRepeat, s, t.next, rest) ==> WalkOutcome(maxRepeat, s, 0, Prepend(prefix + e, rest))
  {
    forall rest | WalkOutcome(maxRepeat, s, t.next, rest)
      ensures WalkOutcome(maxRepeat, s, 0, Prepend(prefix + e, rest))
    {
      WalkPrepend(maxRepeat, s, i, t, e, rest);
      PrependTwice(prefix, e, rest);
    }
  }

  /** A pass over the token at `i` that raises ends the walk with that
      exception. */
  lemma WalkStepFails(maxRepeat: nat, s: string, i: nat, step: Result<(string, nat)>)
    requires i < |s| && step.Failure?
    requires TokenAt(maxRepeat, s, i).Failure? ==> step == Failure(TokenAt(maxRepeat, s, i).error)
    requires TokenAt(maxRepeat, s, i).Success? ==> TokenStep(TokenAt(maxRepeat, s, i).value, step)
    ensures WalkOutcome(maxRepeat, s, i, Failure(step.error))
  {
  }

  /** `return_random_item_from_collection`: `random.choice`, which raises
      IndexError on an empty collection. */
  method ReturnRandomItemFromCollection(collection: string) returns (r: Result<char>)
    ensures |collection| == 0 ==> r == Failure(IndexError)
    ensures |collection| > 0 ==> r.Success? && r.value in collection
  {
    if |collection| == 0 {
      return Failure(IndexError);
    }
    assert collection[0] in collection;
    var item :| item in collection;
    return Success(item);
  }

  /** The `for i in range(random_amount)` loops: `amount` draws from `pool`. */
  method DrawMany(pool: string, amount: nat) returns (r: Result<string>)
    ensures |pool| == 0 && amount > 0 ==> r == Failure(IndexError)
    ensures |pool| > 0 || amount == 0 ==>
              r.Success? && |r.value| == amount && forall k :: 0 <= k < amount ==> r.value[k] in pool
  {
    var drawn: string := [];
    var i := 0;
    while i < amount
      invariant 0 <= i <= amount && |drawn| == i
      invariant |pool| > 0 || i == 0
      invariant forall k :: 0 <= k < i ==> drawn[k] in pool
    {
      var item := ReturnRandomItemFromCollection(pool);
      if item.Failure? {
        return Failure(item.error);
      }
      drawn := drawn + [item.value];
      i := i + 1;
    }
    return Success(drawn);
  }

  /** The draws of one token: `amount` characters from its pool. */
  method DrawToken(ghost t: Token, pool: string, amount: nat) returns (r: Result<string>)
    requires pool == t.pool && t.lo <= amount <= t.hi
    ensures r.Failure? ==> DrawFails(t) && r.error == IndexError
    ensures r.Success? ==> Emits(t, r.value)
  {
    r := DrawMany(pool, amount);
  }

  /** The quantifier after a token and the repeat count drawn from it: the
      `if (index + k) < len(regex_string)` pattern shared by the branches. */
  method DrawQuantified(maxRepeat: nat, s: string, at: nat) returns (q: Option<Quantifier>, amount: Result<nat>)
    ensures q == QuantifierAfter(maxRepeat, s, at)
    ensures RepeatRange(q).Failure? ==> amount == Failure(RepeatRange(q).error)
    ensures RepeatRange(q).Success? ==>
              amount.Success? && RepeatRange(q).value.0 <= amount.value <= RepeatRange(q).value.1
  {
    if at < |s| {
      q := CheckForQuantifier(maxRepeat, s, at);
      amount := DrawRepeatCount(q);
    } else {
      q := Some(Quantifier(Count(1), Count(1), 0));
      amount := Success(1);
    }
  }

  /** The outcome of one pass over a token read as `t`: an exception only from
      a draw on an empty pool, otherwise characters it can emit and the
      position after it. */
  ghost predicate TokenStep(t: Token, r: Result<(string, nat)>)
  {
    && (r.Failure? ==> DrawFails(t) && r.error == IndexError)
    && (r.Success? ==> Emits(t, r.value.0) && r.value.1 == t.next)
  }

  /** One pass of the loop of `process_regular_regex` at `i`: the characters
      emitted and where the loop continues. */
  method ProcessToken(maxRepeat: nat, s: string, i: nat) returns (r: Result<(string, nat)>)
    requires i < |s|
    ensures TokenAt(maxRepeat, s, i).Failure? ==> r == Failure(TokenAt(maxRepeat, s, i).error)
    ensures TokenAt(maxRepeat, s, i).Success? ==> TokenStep(TokenAt(maxRepeat, s, i).value, r)
  {
    if s[i] == '\\' {
      r := ProcessEscape(maxRepeat, s, i);
    } else if s[i] == '[' {
      r := ProcessBracket(maxRepeat, s, i);
    } else if s[i] == '.' {
      r := ProcessDot(maxRepeat, s, i);
    } else if s[i] == '^' || s[i] == '$' {
      r := Success(([], i + 1));
    } else {
      r := ProcessLiteral(maxRepeat, s, i);
    }
  }

  /** The backslash branch of the loop. */
  method ProcessEscape(maxRepeat: nat, s: string, i: nat) returns (r: Result<(string, nat)>)
    requires i < |s|
    ensures EscapeToken(maxRepeat, s, i).Failure? ==> r == Failure(EscapeToken(maxRepeat, s, i).error)
    ensures EscapeToken(maxRepeat, s, i).Success? ==> TokenStep(EscapeToken(maxRepeat, s, i).value, r)
  {
    var q, amount := DrawQuantified(maxRepeat, s, i + 2);
    if amount.Failure? {
      return Failure(amount.error);
    }
    if i + 1 >= |s| {
      return Failure(IndexError);
    }
    var emitted: string := [];
    if IsMeaningfulEscape(s[i + 1]) {
      var pool := EscapeSet(s[i + 1]);
      EscapeSetShape(s[i + 1]);
      var drawn := DrawMany(pool, amount.value);
      emitted := drawn.value;
    }
    return Success((emitted, i + 1 + q.value.chars + 1));
  }

  /** The square-bracket branch of the loop. */
  method ProcessBracket(maxRepeat: nat, s: string, i: nat) returns (r: Result<(string, nat)>)
    requires i < |s|
    ensures BracketToken(maxRepeat, s, i).Failure? ==> r == Failure(BracketToken(maxRepeat, s, i).error)
    ensures BracketToken(maxRepeat, s, i).Success? ==> TokenStep(BracketToken(maxRepeat, s, i).value, r)
  {
    var closing := FindClosingBracket(s, i + 1);
    var content := if closing.Some? then s[i + 1..closing.value] else s[i + 1..];
    var collection := BuildBracketCollection(content);
    if collection.Failure? {
      return Failure(collection.error);
    }
    if closing.None? {
      return Failure(TypeError);
    }
    var close := closing.value;
    assert BracketToken(maxRepeat, s, i) == QuantifiedToken(maxRepeat, s, close + 1, collection.value, close + 1);
    r := ProcessQuantified(maxRepeat, s, close + 1, collection.value, close + 1);
  }

  /** The search for the `]` that closes a bracket list opened before `from`. */
  method FindClosingBracket(s: string, from: nat) returns (closing: Option<nat>)
    ensures closing == FindFrom(s, ']', from)
  {
    closing := None;
    var j := from;
    while j < |s|
      invariant from <= j
      invariant FindFrom(s, ']', j) == FindFrom(s, ']', from)
    {
      if s[j] == ']' {
        closing := Some(j);
        return;
      }
      j := j + 1;
    }
  }

  /** The dot branch of the loop. */
  method ProcessDot(maxRepeat: nat, s: string, i: nat) returns (r: Result<(string, nat)>)
    requires i < |s|
    ensures DotToken(maxRepeat, s, i).Failure? ==> r == Failure(DotToken(maxRepeat, s, i).error)
    ensures DotToken(maxRepeat, s, i).Success? ==> TokenStep(DotToken(maxRepeat, s, i).value, r)
  {
    var total := DotPool;
    r := ProcessQuantified(maxRepeat, s, i + 1, total, i + 2);
  }

  /** The branch for a character that stands for itself. */
  method ProcessLiteral(maxRepeat: nat, s: string, i: nat) returns (r: Result<(string, nat)>)
    requires i < |s|
    ensures LiteralToken(maxRepeat, s, i).Failure? ==> r == Failure(LiteralToken(maxRepeat, s, i).error)
    ensures LiteralToken(maxRepeat, s, i).Success? ==> TokenStep(LiteralToken(maxRepeat, s, i).value, r)
  {
    r := ProcessQuantified(maxRepeat, s, i + 1, [s[i]], i + 1);
  }

  /** What the dot, bracket and literal branches share: read the quantifier
      at `at`, draw a count, draw that many characters from `pool`. */
  method ProcessQuantified(maxRepeat: nat, s: string, at: nat, pool: string, resume: nat) returns (r: Result<(string, nat)>)
    ensures QuantifiedToken(maxRepeat, s, at, pool, resume).Failure? ==>
              r == Failure(QuantifiedToken(maxRepeat, s, at, pool, resume).error)
    ensures QuantifiedToken(maxRepeat, s, at, pool, resume).Success? ==>
              TokenStep(QuantifiedToken(maxRepeat, s, at, pool, resume).value, r)
  {
    var q, amount := DrawQuantified(maxRepeat, s, at);
    if amount.Failure? {
      return Failure(amount.error);
    }
    ghost var range := RepeatRange(q).value;
    var drawn := DrawToken(Token(pool, range.0, range.1, resume + q.value.chars), pool, amount.value);
    if drawn.Failure? {
      return Failure(drawn.error);
    }
    return Success((drawn.value, resume + q.value.chars));
  }

  /** `process_regular_regex`: the characters of one walk over the run (or
      over the part alternation chose), or the exception that aborted it. */
  method ProcessRegularRegex(maxRepeat: nat, s: string) returns (r: Result<string>)
    ensures RegularOutcome(maxRepeat, s, r)
  {
    if '|' in s && '[' !in s {
      var part, a, b := ProcessLogicalOr(s);
      r := WalkTokens(maxRepeat, part);
    } else {
      r := WalkTokens(maxRepeat, s);
    }
  }

  /** The `while index < len(regex_string)` loop of `process_regular_regex`,
      accumulating into `temp_result`. */
  method WalkTokens(maxRepeat: nat, text: string) returns (r: Result<string>)
    ensures WalkOutcome(maxRepeat, text, 0, r)
  {
    var tempResult: string := [];
    var index := 0;
    forall rest: Result<string>
      ensures Prepend(tempResult, rest) == rest
    {
      PrependNothing(rest);
    }
    while index < |text|
      invariant forall rest :: WalkOutcome(maxRepeat, text, index, rest) ==>
                  WalkOutcome(maxRepeat, text, 0, Prepend(tempResult, rest))
      decreases |text| - index
    {
      var step := ProcessToken(maxRepeat, text, index);
      if step.Failure? {
        WalkStepFails(maxRepeat, text, index, step);
        r := Failure(step.error);
        assert Prepend(tempResult, r) == r;
        return;
      }
      var t := TokenAt(maxRepeat, text, index).value;
      var emitted := step.value.0;
      ExtendWalkPrefix(maxRepeat, text, index, t, tempResult, emitted);
      tempResult := tempResult + emitted;
      index := step.value.1;
    }
    assert WalkOutcome(maxRepeat, text, index, Success([]));
    assert tempResult + [] == tempResult;
    r := Success(tempResult);
  }
}
