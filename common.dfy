/** Shared vocabulary of the generator model: optional values, the Python
    exceptions the generator can raise, and Python's string slicing and
    searching on `seq<char>`. */
module Common {

  datatype Option<T> = None | Some(value: T)

  /** The exception kinds the generator raises on malformed patterns:
      IndexError (a subscript past the end, `random.choice` of an empty
      collection), TypeError (`int(None)`, subscripting `None`, `None + 1`)
      and ValueError (`int` of a non-number, `randint` with min > max,
      `str.index` without a match). */
  datatype Error = IndexError | TypeError | ValueError

  /** A computation either completes with a value or raises. */
  datatype Result<T> = Success(value: T) | Failure(error: Error) {
    predicate IsFailure() { Failure? }

    function PropagateFailure<U>(): Result<U>
      requires Failure?
    {
      Failure(error)
    }

    function Extract(): T
      requires Success?
    {
      value
    }
  }

  /** The outcome of emitting `v` and then running something whose outcome is `r`:
      an exception raised later still aborts the whole call. */
  function Prepend(v: string, r: Result<string>): Result<string>
  {
    match r
    case Success(w) => Success(v + w)
    case Failure(e) => Failure(e)
  }

  lemma PrependNothing(r: Result<string>)
    ensures Prepend([], r) == r
  {
    if r.Success? {
      assert [] + r.value == r.value;
    }
  }

  lemma PrependTwice(v: string, w: string, r: Result<string>)
    ensures Prepend(v, Prepend(w, r)) == Prepend(v + w, r)
  {
    if r.Success? {
      assert v + (w + r.value) == (v + w) + r.value;
    }
  }

  /** Python's `s[a:b]` for non-negative bounds: both ends are clamped to the
      length, and the slice is empty when `b <= a`. */
  function Slice(s: string, a: nat, b: nat): (r: string)
    ensures a <= b <= |s| ==> r == s[a..b]
    ensures b <= a ==> r == []
    ensures |r| <= |s|
  {
    var hi := if b <= |s| then b else |s|;
    var lo := if a <= hi then a else hi;
    s[lo..hi]
  }

  /** The first index at or after `from` that holds `c` (Python's `str.index`,
      or a `for` loop that breaks at the first match), or None. */
  function FindFrom(s: string, c: char, from: nat): (r: Option<nat>)
    ensures r.Some? ==> from <= r.value < |s| && s[r.value] == c
    ensures r.Some? ==> forall j :: from <= j < r.value ==> s[j] != c
    ensures r.None? <==> forall j :: from <= j < |s| ==> s[j] != c
    decreases |s| - from
  {
    if from >= |s| then None
    else if s[from] == c then Some(from)
    else FindFrom(s, c, from + 1)
  }

  /** The last index that holds `c` (Python's `str.rfind`), or None. */
  function FindLast(s: string, c: char): (r: Option<nat>)
    ensures r.Some? ==> r.value < |s| && s[r.value] == c
    ensures r.Some? ==> forall j :: r.value < j < |s| ==> s[j] != c
    ensures r.None? <==> c !in s
  {
    if |s| == 0 then None
    else if s[|s| - 1] == c then Some(|s| - 1)
    else FindLast(s[..|s| - 1], c)
  }

  /** `n` copies of the character `c`. */
  function Copies(c: char, n: nat): (r: string)
    ensures |r| == n
    ensures forall j :: 0 <= j < n ==> r[j] == c
  {
    if n == 0 then [] else Copies(c, n - 1) + [c]
  }
}
