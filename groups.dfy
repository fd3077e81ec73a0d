/** Group location (`get_outer_brackets`): the first unescaped `(` of a
    pattern and the `)` that closes it. */
module Groups {
  import opened Common

  /** The character before position `i` as Python reads `s[i - 1]`: at index 0
      that is the last character of the string. */
  function Prev(s: string, i: nat): char
    requires i < |s|
  {
    if i == 0 then s[|s| - 1] else s[i - 1]
  }

  /** Position `i` holds `c` and the character before it is not a backslash. */
  predicate Unescaped(s: string, i: nat, c: char)
    requires i < |s|
  {
    s[i] == c && Prev(s, i) != '\\'
  }

  /** Unescaped `(` minus unescaped `)` in `s[a..b]`. */
  function Balance(s: string, a: nat, b: nat): int
    requires a <= b <= |s|
    decreases b - a
  {
    if a == b then 0
    else Balance(s, a, b - 1)
         + (if Unescaped(s, b - 1, '(') then 1 else if Unescaped(s, b - 1, ')') then -1 else 0)
  }

  /** Position `j` closes the group opened at `open`: an unescaped `)` where
      the unescaped parentheses in between balance. */
  predicate Closes(s: string, open: nat, j: nat)
    requires open < j < |s|
  {
    Unescaped(s, j, ')') && Balance(s, open + 1, j) == 0
  }

  /** The first unescaped `(` at or after `i`. */
  function FirstOpen(s: string, i: nat): (r: Option<nat>)
    requires i <= |s|
    ensures r.Some? ==> i <= r.value < |s| && Unescaped(s, r.value, '(')
    ensures r.Some? ==> forall j :: i <= j < r.value ==> !Unescaped(s, j, '(')
    ensures r.None? ==> forall j :: i <= j < |s| ==> !Unescaped(s, j, '(')
    decreases |s| - i
  {
    if i == |s| then None
    else if Unescaped(s, i, '(') then Some(i)
    else FirstOpen(s, i + 1)
  }

  /** The closing scan of `get_outer_brackets` from index `i` with `depth`
      extra unescaped `(` still open. */
  function CloseFrom(s: string, i: nat, depth: int): Option<nat>
    requires i <= |s|
    decreases |s| - i
  {
    if i == |s| then None
    else if Unescaped(s, i, ')') && depth == 0 then Some(i)
    else if Unescaped(s, i, '(') then CloseFrom(s, i + 1, depth + 1)
    else if Unescaped(s, i, ')') && depth > 0 then CloseFrom(s, i + 1, depth - 1)
    else CloseFrom(s, i + 1, depth)
  }

  /** The closing scan finds the first position after `open` where the
      parentheses in between balance, and nothing when there is none. */
  lemma {:induction false} CloseFromFindsClose(s: string, open: nat, i: nat, depth: int)
    requires open < i <= |s|
    requires depth == Balance(s, open + 1, i) && depth >= 0
    requires forall j :: open < j < i ==> !Closes(s, open, j)
    ensures CloseFrom(s, i, depth).Some? ==>
              var c := CloseFrom(s, i, depth).value;
              i <= c < |s| && Closes(s, open, c) && forall j :: open < j < c ==> !Closes(s, open, j)
    ensures CloseFrom(s, i, depth).None? ==> forall j :: open < j < |s| ==> !Closes(s, open, j)
    decreases |s| - i
  {
    if i < |s| && !(Unescaped(s, i, ')') && depth == 0) {
      assert !Closes(s, open, i);
      var depth' := if Unescaped(s, i, '(') then depth + 1 else if Unescaped(s, i, ')') then depth - 1 else depth;
      assert Balance(s, open + 1, i + 1) == depth';
      CloseFromFindsClose(s, open, i + 1, depth');
    }
  }

  /** The value `get_outer_brackets` returns: empty without an unescaped `(`,
      just the opening index when the group is never closed, and otherwise
      the opening and the closing index. */
  function OuterBrackets(s: string): (r: seq<nat>)
    ensures |r| <= 2
    ensures |r| == 0 <==> forall i :: 0 <= i < |s| ==> !Unescaped(s, i, '(')
    ensures |r| >= 1 ==> r[0] < |s| && Unescaped(s, r[0], '(')
    ensures |r| >= 1 ==> forall i :: 0 <= i < r[0] ==> !Unescaped(s, i, '(')
    ensures |r| == 2 ==> r[0] < r[1] < |s| && Closes(s, r[0], r[1])
    ensures |r| == 2 ==> forall j :: r[0] < j < r[1] ==> !Closes(s, r[0], j)
    ensures |r| == 1 ==> forall j :: r[0] < j < |s| ==> !Closes(s, r[0], j)
  {
    match FirstOpen(s, 0)
    case None => []
    case Some(open) =>
      CloseFromFindsClose(s, open, open + 1, 0);
      match CloseFrom(s, open + 1, 0)
      case None => [open]
      case Some(close) => [open, close]
  }

  /** `get_outer_brackets`: two scanning loops, the second keeping a depth
      counter of the unescaped parentheses opened inside the group. */
  method GetOuterBrackets(s: string) returns (brackets: seq<nat>)
    ensures brackets == OuterBrackets(s)
  {
    brackets := [];
    var index := 0;
    while index < |s|
      invariant 0 <= index <= |s|
      invariant FirstOpen(s, index) == FirstOpen(s, 0)
    {
      if s[index] == '(' && Prev(s, index) != '\\' {
        brackets := brackets + [index];
        break;
      }
      index := index + 1;
    }
    if |brackets| == 0 {
      return;
    }
    var open := brackets[0];
    var extraOpeningBrackets := 0;
    index := open + 1;
    while index < |s|
      invariant open + 1 <= index <= |s|
      invariant brackets == [open]
      invariant CloseFrom(s, index, extraOpeningBrackets) == CloseFrom(s, open + 1, 0)
    {
      if s[index] == ')' && Prev(s, index) != '\\' && extraOpeningBrackets == 0 {
        brackets := brackets + [index];
        break;
      } else if s[index] == '(' && Prev(s, index) != '\\' {
        extraOpeningBrackets := extraOpeningBrackets + 1;
      } else if s[index] == ')' && Prev(s, index) != '\\' && extraOpeningBrackets > 0 {
        extraOpeningBrackets := extraOpeningBrackets - 1;
      }
      index := index + 1;
    }
  }
}
