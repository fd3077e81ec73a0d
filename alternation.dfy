/** Alternation (`process_logical_or`): one of the `|`-separated parts of a
    run, chosen at random. */
module Alternation {
  import opened Common
  import opened Quantifiers

  /** `s[a..b]` is one of the parts `|` splits `s` into: it starts at the
      beginning or right after a `|`, ends at the end or right before one,
      and holds no `|` itself. */
  ghost predicate Delimits(s: string, a: int, b: int)
  {
    && 0 <= a <= b <= |s|
    && (a == 0 || s[a - 1] == '|')
    && (b == |s| || s[b] == '|')
    && forall j :: a <= j < b ==> s[j] != '|'
  }

  /** The positions of the `|` characters, in increasing order. */
  ghost predicate BarPositions(s: string, bars: seq<nat>, upTo: nat)
    requires upTo <= |s|
  {
    && (forall k :: 0 <= k < |bars| ==> bars[k] < upTo && s[bars[k]] == '|')
    && (forall k, l :: 0 <= k < l < |bars| ==> bars[k] < bars[l])
    && (forall j :: 0 <= j < upTo && s[j] == '|' ==> j in bars)
  }

  /** No `|` lies strictly between two consecutive recorded positions. */
  lemma BetweenConsecutiveBars(s: string, bars: seq<nat>, k: nat, j: nat)
    requires BarPositions(s, bars, |s|)
    requires k + 1 < |bars| && bars[k] < j < bars[k + 1]
    ensures s[j] != '|'
  {
    forall l | 0 <= l < |bars|
      ensures bars[l] != j
    {
      if l < k {
        assert bars[l] < bars[k];
      } else if l > k + 1 {
        assert bars[k + 1] < bars[l];
      }
    }
  }

  /** `process_logical_or` on a run holding at least one `|`: collects the
      positions of the bars, draws a part number between 0 and their count,
      and returns that part. */
  method ProcessLogicalOr(s: string) returns (part: string, ghost a: nat, ghost b: nat)
    requires '|' in s
    ensures Delimits(s, a, b) && part == s[a..b]
    ensures '|' !in part
  {
    var bars: seq<nat> := [];
    var index := 0;
    while index < |s|
      invariant 0 <= index <= |s|
      invariant BarPositions(s, bars, index)
    {
      if s[index] == '|' {
        bars := bars + [index];
      }
      index := index + 1;
    }
    assert |bars| > 0 by {
      var j :| 0 <= j < |s| && s[j] == '|';
      assert j in bars;
    }
    var amountOperators := |bars|;
    var drawn := GetRandomNumberBetween(0, amountOperators);
    var randomPart := drawn.value;
    var start, stop;
    if randomPart == 0 {
      start, stop := 0, bars[0];
      a, b := start, stop;
      forall l | 0 < l < |bars|
        ensures bars[0] < bars[l]
      {
      }
    } else if randomPart == amountOperators {
      start, stop := bars[randomPart - 1] + 1, |s|;
      a, b := start, stop;
      forall l | 0 <= l < randomPart - 1
        ensures bars[l] < bars[randomPart - 1]
      {
      }
    } else {
      start, stop := bars[randomPart - 1] + 1, bars[randomPart];
      a, b := start, stop;
      forall j | a <= j < b
        ensures s[j] != '|'
      {
        BetweenConsecutiveBars(s, bars, randomPart - 1, j);
      }
    }
    part := s[start..stop];
  }

  /** A part is determined by where it starts. */
  lemma PartDeterminedByStart(s: string, a: int, b: int, b': int)
    requires Delimits(s, a, b) && Delimits(s, a, b')
    ensures b == b'
  {
  }

  /** The text before the first `|` and the text after the last one are
      both parts, so both can be chosen. */
  lemma OuterPartsAreChoices(s: string)
    requires '|' in s
    ensures Delimits(s, 0, FindFrom(s, '|', 0).value)
    ensures Delimits(s, FindLast(s, '|').value + 1, |s|)
  {
    assert FindFrom(s, '|', 0).Some?;
  }

  /** The parts of `x|y` when neither side holds a bar are exactly x and y. */
  lemma TwoParts(x: string, y: string, a: int, b: int)
    requires '|' !in x && '|' !in y
    requires Delimits(x + "|" + y, a, b)
    ensures (x + "|" + y)[a..b] == x || (x + "|" + y)[a..b] == y
  {
    var s := x + "|" + y;
    assert forall j :: 0 <= j < |x| ==> s[j] == x[j];
    assert forall j :: |x| < j < |s| ==> s[j] == y[j - |x| - 1];
    assert s[|x|] == '|';
    if a == 0 {
      assert s[a..b] == x;
    } else {
      assert s[a..b] == y;
    }
  }
}
