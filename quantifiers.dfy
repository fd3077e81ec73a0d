/** Quantifier parsing (`check_for_quantifier`, `process_quantifier_block`)
    and the repeat-count draw (`int(...)` on both bounds followed by
    `get_random_number_between`). */
module Quantifiers {
  import opened Common

  /** A bound as the parser leaves it: a number fixed by `*`, `+`, `?` or the
      absence of a quantifier, the raw text of a `{...}` block, or Python's
      None when that side of the comma is empty. */
  datatype Bound = Count(n: nat) | Text(text: string) | Missing

  /** The `{"Min", "Max", "Chars"}` dictionary: `chars` is how many pattern
      characters the quantifier occupies. */
  datatype Quantifier = Quantifier(min: Bound, max: Bound, chars: nat)

  function BoundText(b: Bound): string
  {
    match b
    case Text(t) => t
    case _ => []
  }

  /** `process_quantifier_block` on a block `{...}`: without a comma both
      bounds are the inner text; with one, the text before the first comma is
      the minimum and the rest the maximum, an empty side being None. */
  function ProcessQuantifierBlock(block: string): (r: (Bound, Bound))
    requires 2 <= |block| && block[0] == '{' && block[|block| - 1] == '}'
    ensures !r.0.Count? && !r.1.Count?
    ensures ',' !in block ==> r.0 == r.1 == Text(block[1..|block| - 1])
    ensures ',' in block ==>
              && BoundText(r.0) + [','] + BoundText(r.1) == block[1..|block| - 1]
              && ',' !in BoundText(r.0)
              && r.0 != Text([]) && r.1 != Text([])
  {
    var length := |block|;
    if ',' in block then
      var comma := FindFrom(block, ',', 0).value;
      var minValue := if comma - 1 != 0 then Text(block[1..comma]) else Missing;
      var maxValue := if comma + 1 != length - 1 then Text(block[comma + 1..length - 1]) else Missing;
      assert block[1..length - 1] == block[1..comma] + [','] + block[comma + 1..length - 1];
      (minValue, maxValue)
    else
      (Text(block[1..length - 1]), Text(block[1..length - 1]))
  }

  /** The quantifier starting at `start`, or None when a `{` is never closed
      (the search loop of `check_for_quantifier` falls through). */
  function QuantifierAt(maxRepeat: nat, s: string, start: nat): (q: Option<Quantifier>)
    requires start < |s|
    ensures q.None? <==> s[start] == '{' && '}' !in s[start..]
    ensures q.Some? ==> start + q.value.chars <= |s|
    ensures q.Some? && s[start] == '{' ==>
              && q.value.chars >= 2
              && s[start + q.value.chars - 1] == '}'
              && '}' !in s[start..start + q.value.chars - 1]
    ensures q.Some? && s[start] != '{' ==> q.value.chars == (if s[start] in "*+?" then 1 else 0)
  {
    if s[start] == '*' then Some(Quantifier(Count(0), Count(maxRepeat), 1))
    else if s[start] == '+' then Some(Quantifier(Count(1), Count(maxRepeat), 1))
    else if s[start] == '?' then Some(Quantifier(Count(0), Count(1), 1))
    else if s[start] == '{' then
      match FindFrom(s, '}', start)
      case None =>
        assert forall x :: x in s[start..] ==> x != '}';
        None
      case Some(index) =>
        var bounds := ProcessQuantifierBlock(s[start..index + 1]);
        assert '}' !in s[start..index];
        Some(Quantifier(bounds.0, bounds.1, index + 1 - start))
    else Some(Quantifier(Count(1), Count(1), 0))
  }

  /** Python's `int` on a string, restricted to plain decimal digits. */
  function ParseDecimal(t: string): (r: Option<nat>)
    ensures r.Some? <==> |t| > 0 && forall j :: 0 <= j < |t| ==> '0' <= t[j] <= '9'
  {
    if |t| == 0 || exists j :: 0 <= j < |t| && !('0' <= t[j] <= '9') then None
    else if |t| == 1 then Some(t[0] as int - '0' as int)
    else Some(10 * ParseDecimal(t[..|t| - 1]).value + (t[|t| - 1] as int - '0' as int))
  }

  /** The decimal spelling of `n`, as `str(n)` gives it. */
  function Decimal(n: nat): (r: string)
    ensures |r| > 0
    ensures forall j :: 0 <= j < |r| ==> '0' <= r[j] <= '9'
  {
    if n < 10 then [('0' as int + n) as char]
    else Decimal(n / 10) + [('0' as int + n % 10) as char]
  }

  /** Reading back a decimal spelling gives the number. */
  lemma {:induction false} ParseDecimalRoundTrip(n: nat)
    ensures ParseDecimal(Decimal(n)) == Some(n)
  {
    if n >= 10 {
      var d := Decimal(n);
      assert d[..|d| - 1] == Decimal(n / 10);
      ParseDecimalRoundTrip(n / 10);
    }
  }

  /** `int(bound)`: None raises TypeError and a non-number ValueError. */
  function IntOf(b: Bound): (r: Result<nat>)
    ensures b.Missing? ==> r == Failure(TypeError)
    ensures b.Count? ==> r == Success(b.n)
    ensures b.Text? ==> (r.Success? <==> ParseDecimal(b.text).Some?)
    ensures r.Failure? ==> r.error != IndexError
  {
    match b
    case Count(n) => Success(n)
    case Missing => Failure(TypeError)
    case Text(t) =>
      match ParseDecimal(t)
      case Some(n) => Success(n)
      case None => Failure(ValueError)
  }

  /** The range a repeat count is drawn from, or the exception raised on the
      way: subscripting a None quantifier, `int` of either bound, or `randint`
      with min > max. */
  function RepeatRange(q: Option<Quantifier>): (r: Result<(nat, nat)>)
    ensures r.Success? ==> r.value.0 <= r.value.1
    ensures q.None? ==> r == Failure(TypeError)
    ensures q.Some? && IntOf(q.value.min).Success? && IntOf(q.value.max).Success? ==>
              (r.Success? <==> IntOf(q.value.min).value <= IntOf(q.value.max).value)
  {
    match q
    case None => Failure(TypeError)
    case Some(quantifier) =>
      var lo :- IntOf(quantifier.min);
      var hi :- IntOf(quantifier.max);
      if lo > hi then Failure(ValueError) else Success((lo, hi))
  }

  /** A range is the two bounds converted by `int`; the first bound that
      cannot be converted gives the exception. */
  lemma RepeatRangeValue(q: Option<Quantifier>)
    ensures RepeatRange(q).Success? ==>
              q.Some? && IntOf(q.value.min).Success? && IntOf(q.value.max).Success? &&
              RepeatRange(q).value == (IntOf(q.value.min).value, IntOf(q.value.max).value)
    ensures q.Some? && IntOf(q.value.min).Failure? ==> RepeatRange(q) == Failure(IntOf(q.value.min).error)
    ensures q.Some? && IntOf(q.value.min).Success? && IntOf(q.value.max).Failure? ==>
              RepeatRange(q) == Failure(IntOf(q.value.max).error)
  {
  }

  /** `*`, `+`, `?` and no quantifier mean "0 to the ceiling", "1 to the
      ceiling", "0 or 1" and "exactly once". */
  lemma FixedQuantifierRanges(maxRepeat: nat, s: string, start: nat)
    requires start < |s|
    ensures s[start] == '*' ==> RepeatRange(QuantifierAt(maxRepeat, s, start)) == Success((0, maxRepeat))
    ensures s[start] == '+' && maxRepeat >= 1 ==> RepeatRange(QuantifierAt(maxRepeat, s, start)) == Success((1, maxRepeat))
    ensures s[start] == '+' && maxRepeat == 0 ==> RepeatRange(QuantifierAt(maxRepeat, s, start)) == Failure(ValueError)
    ensures s[start] == '?' ==> RepeatRange(QuantifierAt(maxRepeat, s, start)) == Success((0, 1))
    ensures s[start] !in "*+?{" ==> RepeatRange(QuantifierAt(maxRepeat, s, start)) == Success((1, 1))
  {
  }

  /** A well-formed block at `start` is read whole. */
  lemma BlockAt(maxRepeat: nat, s: string, start: nat, block: string)
    requires 2 <= |block| && block[0] == '{' && block[|block| - 1] == '}'
    requires '}' !in block[..|block| - 1]
    requires start + |block| <= |s| && s[start..start + |block|] == block
    ensures QuantifierAt(maxRepeat, s, start)
            == Some(Quantifier(ProcessQuantifierBlock(block).0, ProcessQuantifierBlock(block).1, |block|))
  {
    var close := start + |block| - 1;
    BlockFound(s, start, block);
    ClosedBlockAt(maxRepeat, s, start, close);
    assert s[start..close + 1] == block;
  }

  /** The search for `}` from the start of a block stops at the block's end. */
  lemma BlockFound(s: string, start: nat, block: string)
    requires 2 <= |block| && block[0] == '{' && block[|block| - 1] == '}'
    requires '}' !in block[..|block| - 1]
    requires start + |block| <= |s| && s[start..start + |block|] == block
    ensures start < |s| && s[start] == '{'
    ensures FindFrom(s, '}', start) == Some(start + |block| - 1)
  {
    var close := start + |block| - 1;
    assert s[start] == block[0];
    forall j | start <= j < close
      ensures s[j] != '}'
    {
      assert s[j] == block[j - start] == block[..|block| - 1][j - start];
    }
    assert s[close] == '}';
    var found := FindFrom(s, '}', start);
    assert found.Some?;
    assert found.value == close;
  }


  /** A block `{n}` repeats exactly n times. */
  lemma ExactBlockRange(maxRepeat: nat, s: string, start: nat, n: nat)
    requires start + |Decimal(n)| + 2 <= |s| && s[start..start + |Decimal(n)| + 2] == "{" + Decimal(n) + "}"
    ensures QuantifierAt(maxRepeat, s, start).Some?
    ensures QuantifierAt(maxRepeat, s, start).value.chars == |Decimal(n)| + 2
    ensures RepeatRange(QuantifierAt(maxRepeat, s, start)) == Success((n, n))
  {
    var block := "{" + Decimal(n) + "}";
    assert block[..|block| - 1] == "{" + Decimal(n);
    BlockAt(maxRepeat, s, start, block);
    assert block[1..|block| - 1] == Decimal(n);
    ParseDecimalRoundTrip(n);
  }

  /** A block `{m,n}` repeats between m and n times, and raises ValueError
      when m > n. */
  lemma RangeBlockRange(maxRepeat: nat, s: string, start: nat, m: nat, n: nat)
    requires var block := "{" + Decimal(m) + "," + Decimal(n) + "}";
             start + |block| <= |s| && s[start..start + |block|] == block
    ensures QuantifierAt(maxRepeat, s, start).Some?
    ensures QuantifierAt(maxRepeat, s, start).value.chars == |Decimal(m)| + |Decimal(n)| + 3
    ensures m <= n ==> RepeatRange(QuantifierAt(maxRepeat, s, start)) == Success((m, n))
    ensures m > n ==> RepeatRange(QuantifierAt(maxRepeat, s, start)) == Failure(ValueError)
  {
    var block := "{" + Decimal(m) + "," + Decimal(n) + "}";
    RangeBlockBounds(Decimal(m), Decimal(n));
    BlockAt(maxRepeat, s, start, block);
    ParseDecimalRoundTrip(m);
    ParseDecimalRoundTrip(n);
    assert IntOf(Text(Decimal(m))) == Success(m);
    assert IntOf(Text(Decimal(n))) == Success(n);
  }

  /** The text of `{a,b}` for comma-free a and b splits into a and b. */
  lemma RangeBlockBounds(a: string, b: string)
    requires '}' !in a && ',' !in a && '}' !in b
    ensures var block := "{" + a + "," + b + "}";
            && '}' !in block[..|block| - 1]
            && (|a| > 0 && |b| > 0 ==> ProcessQuantifierBlock(block) == (Text(a), Text(b)))
            && (|a| > 0 && |b| == 0 ==> ProcessQuantifierBlock(block) == (Text(a), Missing))
            && (|a| == 0 && |b| > 0 ==> ProcessQuantifierBlock(block) == (Missing, Text(b)))
  {
    var block := "{" + a + "," + b + "}";
    assert block[..|block| - 1] == "{" + a + "," + b;
    assert block[1 + |a|] == ',';
    assert block[1..|block| - 1] == a + [','] + b;
    var bounds := ProcessQuantifierBlock(block);
    BoundsSplitAtComma(a, b, BoundText(bounds.0), BoundText(bounds.1));
  }

  lemma DecimalHasNoDelimiters(n: nat)
    ensures '}' !in Decimal(n) && ',' !in Decimal(n)
  {
  }

  /** Splitting at the first comma is unique. */
  lemma BoundsSplitAtComma(a: string, b: string, a': string, b': string)
    requires ',' !in a && ',' !in a'
    requires a + [','] + b == a' + [','] + b'
    ensures a == a' && b == b'
  {
    var w := a + [','] + b;
    var w' := a' + [','] + b';
    assert w[|a|] == ',' && forall j :: 0 <= j < |a| ==> w[j] == a[j];
    assert w'[|a'|] == ',' && forall j :: 0 <= j < |a'| ==> w'[j] == a'[j];
    var first := FindFrom(w, ',', 0);
    assert first == Some(|a|);
    assert first == Some(|a'|);
    assert a == w[..|a|] == a';
    assert b == w[|a| + 1..] == b';
  }

  /** The block `{m,}` is read with None as its maximum. */
  lemma OpenAboveBlock(m: nat)
    ensures var block := "{" + Decimal(m) + "," + "}";
            && 2 <= |block| && block[0] == '{' && block[|block| - 1] == '}'
            && '}' !in block[..|block| - 1]
            && ProcessQuantifierBlock(block) == (Text(Decimal(m)), Missing)
  {
    DecimalHasNoDelimiters(m);
    RangeBlockBounds(Decimal(m), "");
    assert "{" + Decimal(m) + "," + "" + "}" == "{" + Decimal(m) + "," + "}";
  }

  /** As written, a one-sided block `{m,}` leaves None as its maximum, and
      `int(None)` raises TypeError (the documented defaulting to the ceiling
      is commented out in the source). */
  lemma OpenAboveBlockRaises(maxRepeat: nat, s: string, start: nat, m: nat)
    requires start + |Decimal(m)| + 3 <= |s| && s[start..start + |Decimal(m)| + 3] == "{" + Decimal(m) + "," + "}"
    ensures RepeatRange(QuantifierAt(maxRepeat, s, start)) == Failure(TypeError)
  {
    OpenAboveBlock(m);
    BlockAt(maxRepeat, s, start, "{" + Decimal(m) + "," + "}");
    ParseDecimalRoundTrip(m);
  }

  /** The block `{,n}` is read with None as its minimum. */
  lemma OpenBelowBlock(n: nat)
    ensures var block := "{" + "," + Decimal(n) + "}";
            && 2 <= |block| && block[0] == '{' && block[|block| - 1] == '}'
            && '}' !in block[..|block| - 1]
            && ProcessQuantifierBlock(block).0 == Missing
  {
    DecimalHasNoDelimiters(n);
    RangeBlockBounds("", Decimal(n));
    assert "{" + "" + "," + Decimal(n) + "}" == "{" + "," + Decimal(n) + "}";
  }

  /** Likewise `{,n}` leaves None as its minimum and raises TypeError (the
      documented defaulting to 0 is commented out). */
  lemma OpenBelowBlockRaises(maxRepeat: nat, s: string, start: nat, n: nat)
    requires start + |Decimal(n)| + 3 <= |s| && s[start..start + |Decimal(n)| + 3] == "{" + "," + Decimal(n) + "}"
    ensures RepeatRange(QuantifierAt(maxRepeat, s, start)) == Failure(TypeError)
  {
    OpenBelowBlock(n);
    BlockAt(maxRepeat, s, start, "{" + "," + Decimal(n) + "}");
  }

  /** `check_for_quantifier`, with its search for the `}` closing a block. */
  method CheckForQuantifier(maxRepeat: nat, s: string, start: nat) returns (q: Option<Quantifier>)
    requires start < |s|
    ensures q == QuantifierAt(maxRepeat, s, start)
  {
    if s[start] == '*' {
      return Some(Quantifier(Count(0), Count(maxRepeat), 1));
    } else if s[start] == '+' {
      return Some(Quantifier(Count(1), Count(maxRepeat), 1));
    } else if s[start] == '?' {
      return Some(Quantifier(Count(0), Count(1), 1));
    } else if s[start] == '{' {
      var found := FindClosingBrace(s, start);
      if found.Some? {
        ClosedBlockAt(maxRepeat, s, start, found.value);
        var values := ProcessQuantifierBlock(s[start..found.value + 1]);
        return Some(Quantifier(values.0, values.1, found.value + 1 - start));
      }
      return None;
    } else {
      return Some(Quantifier(Count(1), Count(1), 0));
    }
  }

  /** A `{` closed at `close` is read as the block between them. */
  lemma ClosedBlockAt(maxRepeat: nat, s: string, start: nat, close: nat)
    requires start < |s| && s[start] == '{' && FindFrom(s, '}', start) == Some(close)
    ensures start < close < |s|
    ensures 2 <= |s[start..close + 1]| && s[start..close + 1][0] == '{' && s[start..close + 1][close - start] == '}'
    ensures QuantifierAt(maxRepeat, s, start)
            == Some(Quantifier(ProcessQuantifierBlock(s[start..close + 1]).0, ProcessQuantifierBlock(s[start..close + 1]).1, close + 1 - start))
  {
    assert s[close] == '}';
    var block := s[start..close + 1];
    assert block[0] == s[start] && block[close - start] == s[close];
    var bounds := ProcessQuantifierBlock(block);
    assert QuantifierAt(maxRepeat, s, start) == Some(Quantifier(bounds.0, bounds.1, close + 1 - start));
  }

  /** The search loop of `check_for_quantifier`: the first `}` at or after
      `start`. */
  method FindClosingBrace(s: string, start: nat) returns (found: Option<nat>)
    requires start <= |s|
    ensures found == FindFrom(s, '}', start)
  {
    var index := start;
    while index < |s|
      invariant start <= index <= |s|
      invariant FindFrom(s, '}', index) == FindFrom(s, '}', start)
    {
      if s[index] == '}' {
        return Some(index);
      }
      index := index + 1;
    }
    return None;
  }

  /** `get_random_number_between`: `random.randint`, which raises ValueError
      on an empty range. */
  method GetRandomNumberBetween(minValue: nat, maxValue: nat) returns (r: Result<nat>)
    ensures minValue > maxValue ==> r == Failure(ValueError)
    ensures minValue <= maxValue ==> r.Success? && minValue <= r.value <= maxValue
  {
    if minValue > maxValue {
      return Failure(ValueError);
    }
    var k :| minValue <= k <= maxValue;
    return Success(k);
  }

  /** `get_random_number_between(int(q["Min"]), int(q["Max"]))`: a repeat
      count drawn from the quantifier's range, or the exception raised. */
  method DrawRepeatCount(q: Option<Quantifier>) returns (r: Result<nat>)
    ensures RepeatRange(q).Failure? ==> r == Failure(RepeatRange(q).error)
    ensures RepeatRange(q).Success? ==> r.Success? && RepeatRange(q).value.0 <= r.value <= RepeatRange(q).value.1
  {
    if q.None? {
      return Failure(TypeError);
    }
    var lo := IntOf(q.value.min);
    if lo.Failure? {
      return Failure(lo.error);
    }
    var hi := IntOf(q.value.max);
    if hi.Failure? {
      return Failure(hi.error);
    }
    r := GetRandomNumberBetween(lo.value, hi.value);
  }
}
