/** Character-class expansion (`build_bracket_collection`): the text between
    `[` and `]` read as ranges `x-y`, escapes `\c` and literals, optionally
    negated by a leading `^`. */
module CharClass {
  import opened Common
  import opened Alphabet

  /** One element of a bracket list, as the scan consumes it. */
  datatype ClassItem = Range(lo: char, hi: char) | Escaped(c: char) | Literal(c: char)

  /** The scan of a bracket list from index `i`: a character followed by `-`
      and one more character is a range; a backslash with a character after
      it is an escape; anything else is a literal. */
  function Items(s: string, i: nat): seq<ClassItem>
    requires i <= |s|
    decreases |s| - i
  {
    if i == |s| then []
    else if i + 2 < |s| && s[i + 1] == '-' then [Range(s[i], s[i + 2])] + Items(s, i + 3)
    else if i + 1 < |s| && s[i] == '\\' then [Escaped(s[i + 1])] + Items(s, i + 2)
    else [Literal(s[i])] + Items(s, i + 1)
  }

  /** The text an item was read from. */
  function Render(items: seq<ClassItem>): string
  {
    if |items| == 0 then []
    else
      (match items[0]
       case Range(lo, hi) => [lo, '-', hi]
       case Escaped(c) => ['\\', c]
       case Literal(c) => [c])
      + Render(items[1..])
  }

  /** The scan reads every character exactly once: rendering the items gives
      back the scanned text. */
  lemma {:induction false} ItemsRender(s: string, i: nat)
    requires i <= |s|
    ensures Render(Items(s, i)) == s[i..]
    decreases |s| - i
  {
    if i < |s| {
      if i + 2 < |s| && s[i + 1] == '-' {
        ItemsRender(s, i + 3);
        assert s[i..] == [s[i], s[i + 1], s[i + 2]] + s[i + 3..];
      } else if i + 1 < |s| && s[i] == '\\' {
        ItemsRender(s, i + 2);
        assert s[i..] == [s[i], s[i + 1]] + s[i + 2..];
      } else {
        ItemsRender(s, i + 1);
        assert s[i..] == [s[i]] + s[i + 1..];
      }
    }
  }

  /** A code point Dafny can hold in a `char` (surrogates excluded). */
  predicate IsScalar(n: int)
  {
    0 <= n < 0xD800 || 0xE000 <= n < 0x11_0000
  }

  /** The characters with codes in `[lo, hi)`, in increasing order. */
  function CodeRange(lo: int, hi: int): (r: string)
    ensures forall x :: x in r <==> lo <= x as int < hi
    decreases hi - lo
  {
    if hi <= lo then []
    else CodeRange(lo, hi - 1) + (if IsScalar(hi - 1) then [(hi - 1) as char] else [])
  }

  /** The characters an item stands for. */
  function Expand(item: ClassItem): string
  {
    match item
    case Range(lo, hi) => CodeRange(lo as int, hi as int + 1)
    case Escaped(c) => EscapeSet(c)
    case Literal(c) => [c]
  }

  /** The characters of all items, in scan order. */
  function Collect(items: seq<ClassItem>): string
  {
    if |items| == 0 then [] else Expand(items[0]) + Collect(items[1..])
  }

  lemma CollectCons(item: ClassItem, rest: seq<ClassItem>)
    ensures Collect([item] + rest) == Expand(item) + Collect(rest)
  {
    assert ([item] + rest)[1..] == rest;
  }

  /** The collection from `i` is the first item's characters followed by
      the collection after it. */
  lemma RangeStep(s: string, i: nat)
    requires i + 2 < |s| && s[i + 1] == '-'
    ensures Collect(Items(s, i)) == Expand(Range(s[i], s[i + 2])) + Collect(Items(s, i + 3))
  {
    CollectCons(Range(s[i], s[i + 2]), Items(s, i + 3));
  }

  lemma EscapeStep(s: string, i: nat)
    requires i + 1 < |s| && !(i + 2 < |s| && s[i + 1] == '-') && s[i] == '\\'
    ensures Collect(Items(s, i)) == EscapeSet(s[i + 1]) + Collect(Items(s, i + 2))
  {
    CollectCons(Escaped(s[i + 1]), Items(s, i + 2));
  }

  lemma LiteralStep(s: string, i: nat)
    requires i < |s| && !(i + 2 < |s| && s[i + 1] == '-') && !(i + 1 < |s| && s[i] == '\\')
    ensures Collect(Items(s, i)) == [s[i]] + Collect(Items(s, i + 1))
  {
    CollectCons(Literal(s[i]), Items(s, i + 1));
  }

  /** Some item stands for `x`. */
  ghost predicate Covers(items: seq<ClassItem>, x: char)
  {
    exists k :: 0 <= k < |items| && x in Expand(items[k])
  }

  lemma {:induction false} CollectMembership(items: seq<ClassItem>, x: char)
    ensures x in Collect(items) <==> Covers(items, x)
  {
    if |items| > 0 {
      CollectMembership(items[1..], x);
      if Covers(items[1..], x) {
        var k :| 0 <= k < |items[1..]| && x in Expand(items[1..][k]);
        assert x in Expand(items[k + 1]);
      }
      if Covers(items, x) {
        var k :| 0 <= k < |items| && x in Expand(items[k]);
        if k > 0 {
          assert x in Expand(items[1..][k - 1]);
        }
      }
    }
  }

  /** The characters of `xs` that are not in `excluded`, in order. */
  function Without(xs: string, excluded: string): string
  {
    if |xs| == 0 then []
    else Without(xs[..|xs| - 1], excluded) + (if xs[|xs| - 1] in excluded then [] else [xs[|xs| - 1]])
  }

  lemma {:induction false} WithoutMembership(xs: string, excluded: string, x: char)
    ensures x in Without(xs, excluded) <==> x in xs && x !in excluded
  {
    if |xs| > 0 {
      WithoutMembership(xs[..|xs| - 1], excluded, x);
      assert xs == xs[..|xs| - 1] + [xs[|xs| - 1]];
    }
  }

  /** The collection a non-empty bracket list stands for: with a leading `^`,
      the table alphabet minus everything the rest covers; otherwise
      everything it covers. */
  function ClassOf(s: string): string
    requires |s| > 0
  {
    if s[0] == '^' then Complement(Collect(Items(s, 1))) else Collect(Items(s, 0))
  }

  /** The table characters not in `excluded`, in table order. */
  function Complement(excluded: string): string
  {
    Without(AllChars, excluded)
  }

  /** Which characters a negated bracket list can produce. */
  lemma NegatedClassMembership(s: string, x: char)
    requires |s| > 0 && s[0] == '^'
    ensures x in ClassOf(s) <==> x in AllChars && !Covers(Items(s, 1), x)
  {
    CollectMembership(Items(s, 1), x);
    WithoutMembership(AllChars, Collect(Items(s, 1)), x);
  }

  /** Which characters a positive bracket list can produce. */
  lemma PositiveClassMembership(s: string, x: char)
    requires |s| > 0
    ensures s[0] != '^' ==> (x in ClassOf(s) <==> Covers(Items(s, 0), x))
  {
    CollectMembership(Items(s, 0), x);
  }

  /** A range `x-y` of a positive list contributes every character whose code
      lies between those of x and y inclusive; in a negated list, none of
      them is drawn. */
  lemma RangeItemContributes(s: string, k: nat, x: char)
    requires |s| > 0
    requires var items := Items(s, if s[0] == '^' then 1 else 0);
             k < |items| && items[k].Range? && items[k].lo <= x <= items[k].hi
    ensures s[0] != '^' ==> x in ClassOf(s)
    ensures s[0] == '^' ==> x !in ClassOf(s)
  {
    var items := Items(s, if s[0] == '^' then 1 else 0);
    assert x in Expand(items[k]);
    if s[0] == '^' {
      NegatedClassMembership(s, x);
    } else {
      PositiveClassMembership(s, x);
    }
  }

  /** Every literal of a positive list is a candidate; a literal of a negated
      list never is. */
  lemma LiteralItemIncluded(s: string, k: nat)
    requires |s| > 0
    requires var items := Items(s, if s[0] == '^' then 1 else 0);
             k < |items| && items[k].Literal?
    ensures var items := Items(s, if s[0] == '^' then 1 else 0);
            (s[0] != '^' ==> items[k].c in ClassOf(s)) && (s[0] == '^' ==> items[k].c !in ClassOf(s))
  {
    var items := Items(s, if s[0] == '^' then 1 else 0);
    assert items[k].c in Expand(items[k]);
    if s[0] == '^' {
      NegatedClassMembership(s, items[k].c);
    } else {
      PositiveClassMembership(s, items[k].c);
    }
  }

  /** A negated list draws only from the table alphabet. */
  lemma NegatedClassWithinAlphabet(s: string, x: char)
    requires |s| > 0 && s[0] == '^' && x in ClassOf(s)
    ensures x in AllChars
  {
    NegatedClassMembership(s, x);
  }

  /** `build_bracket_collection`: IndexError on an empty list (it reads
      `regex_string[0]`), otherwise the collection built by its loops. */
  method BuildBracketCollection(s: string) returns (r: Result<string>)
    ensures |s| == 0 ==> r == Failure(IndexError)
    ensures |s| > 0 ==> r == Success(ClassOf(s))
  {
    if |s| == 0 {
      return Failure(IndexError);
    }
    var collection: string;
    if s[0] == '^' {
      var temp := ScanItems(s, 1);
      collection := KeepUncovered(AllChars, temp);
    } else {
      collection := ScanItems(s, 0);
    }
    return Success(collection);
  }

  /** The loop of a negated list over the table alphabet, keeping, in order,
      every character of `xs` that the list does not cover. */
  method KeepUncovered(xs: string, excluded: string) returns (collection: string)
    ensures collection == Without(xs, excluded)
  {
    collection := [];
    var j := 0;
    while j < |xs|
      invariant 0 <= j <= |xs|
      invariant collection == Without(xs[..j], excluded)
    {
      assert xs[..j + 1][..j] == xs[..j];
      if xs[j] !in excluded {
        collection := collection + [xs[j]];
      }
      j := j + 1;
    }
    assert xs[..j] == xs;
  }

  /** The scanning loop of `build_bracket_collection` from `start`, appending
      each item's characters to the collection. */
  method ScanItems(s: string, start: nat) returns (collection: string)
    requires start <= |s|
    ensures collection == Collect(Items(s, start))
  {
    collection := [];
    var index := start;
    while index < |s|
      invariant start <= index <= |s|
      invariant collection + Collect(Items(s, index)) == Collect(Items(s, start))
    {
      var chunk, next := ScanItem(s, index);
      collection := collection + chunk;
      index := next;
    }
  }

  /** One pass of the scanning loop's body: the characters of the item at
      `index` and the index after it. */
  method ScanItem(s: string, index: nat) returns (chunk: string, next: nat)
    requires index < |s|
    ensures index < next <= |s|
    ensures Collect(Items(s, index)) == chunk + Collect(Items(s, next))
  {
    if index < |s| - 2 && s[index + 1] == '-' {
      chunk := AppendRange([], s[index], s[index + 2]);
      next := index + 3;
      RangeStep(s, index);
      assert chunk == Expand(Range(s[index], s[index + 2]));
    } else if index < |s| - 1 && s[index] == '\\' {
      chunk := EscapeSet(s[index + 1]);
      next := index + 2;
      EscapeStep(s, index);
    } else {
      chunk := [s[index]];
      next := index + 1;
      LiteralStep(s, index);
    }
  }

  /** The inner `for` loop over `range(lo, top)`, appending each code's
      character (codes from `first` to `last` inclusive). */
  method AppendRange(collection: string, first: char, last: char) returns (r: string)
    ensures r == collection + Expand(Range(first, last))
  {
    r := collection;
    var lo, top := first as int, last as int + 1;
    var code := lo;
    while code < top
      invariant lo <= code && (code <= top || code == lo)
      invariant r == collection + CodeRange(lo, code)
    {
      if IsScalar(code) {
        r := r + [code as char];
      }
      code := code + 1;
    }
    assert CodeRange(lo, code) == CodeRange(lo, top);
  }
}
