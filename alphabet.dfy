/** The fixed character tables the generator draws from (Python's `string`
    module constants) and the escape-class table of
    `process_escaped_character`. */
module Alphabet {

  const Lowercase: string := "abcdefghijklmnopqrstuvwxyz"
  const Uppercase: string := "ABCDEFGHIJKLMNOPQRSTUVWXYZ"
  const Digits: string := "0123456789"
  /** Python's `string.whitespace`: space, tab, newline, carriage return,
      vertical tab and form feed. */
  const Whitespace: string := WhitespaceBeforeNewline + "\n" + WhitespaceAfterNewline
  const WhitespaceBeforeNewline: string := " \t"
  const WhitespaceAfterNewline: string := "\r\U{B}\U{C}"
  /** Python's `string.punctuation`, written around its underscore so that
      the table without it can be named. */
  const Punctuation: string := PunctuationBeforeUnderscore + "_" + PunctuationAfterUnderscore
  const PunctuationBeforeUnderscore: string := "!\"#$%&'()*+,-./:;<=>?@[\\]^"
  const PunctuationAfterUnderscore: string := "`{|}~"

  /** The alphabet a negated bracket list is complemented against. */
  const AllChars: string := Lowercase + Uppercase + Digits + Whitespace + Punctuation

  /** The characters that an escaping backslash turns into themselves:
      `.^$*+?()[{\|/`. */
  predicate IsMetachar(c: char)
  {
    c == '.' || c == '^' || c == '$' || c == '*' || c == '+' || c == '?' || c == '(' || c == ')'
    || c == '[' || c == '{' || c == '\\' || c == '|' || c == '/'
  }

  /** The letters that select a predefined class after a backslash. */
  predicate IsClassLetter(c: char)
  {
    c == 'd' || c == 'D' || c == 'w' || c == 'W' || c == 's' || c == 'S'
  }

  /** The characters the escape chain of `process_escaped_character` and
      `process_regular_regex` has a branch for. */
  predicate IsMeaningfulEscape(c: char)
  {
    IsClassLetter(c) || IsMetachar(c)
  }

  predicate IsDigit(x: char) { '0' <= x <= '9' }
  predicate IsLetter(x: char) { 'a' <= x <= 'z' || 'A' <= x <= 'Z' }
  predicate IsSpace(x: char) { x == ' ' || '\t' <= x <= '\r' }
  predicate IsPunct(x: char) { '!' <= x <= '/' || ':' <= x <= '@' || '[' <= x <= '`' || '{' <= x <= '~' }

  /** Each table, described by code-point ranges. */
  lemma LowercaseMembership()
    ensures forall x :: x in Lowercase <==> 'a' <= x <= 'z'
  {
  }

  lemma UppercaseMembership()
    ensures forall x :: x in Uppercase <==> 'A' <= x <= 'Z'
  {
  }

  lemma DigitsMembership()
    ensures forall x :: x in Digits <==> IsDigit(x)
  {
  }

  lemma WhitespaceMembership()
    ensures forall x :: x in Whitespace <==> IsSpace(x)
  {
  }

  lemma PunctuationMembership()
    ensures forall x :: x in Punctuation <==> IsPunct(x)
  {
  }

  lemma TableMembership()
    ensures forall x :: x in Lowercase <==> 'a' <= x <= 'z'
    ensures forall x :: x in Uppercase <==> 'A' <= x <= 'Z'
    ensures forall x :: x in Digits <==> IsDigit(x)
    ensures forall x :: x in Whitespace <==> IsSpace(x)
    ensures forall x :: x in Punctuation <==> IsPunct(x)
    ensures forall x :: x in AllChars <==> IsLetter(x) || IsDigit(x) || IsSpace(x) || IsPunct(x)
  {
    LowercaseMembership();
    UppercaseMembership();
    DigitsMembership();
    WhitespaceMembership();
    PunctuationMembership();
  }

  /** `remove_char_from_string`: the text unchanged when `c` does not occur,
      otherwise every occurrence of `c` dropped (`str.replace(c, "")`). */
  function RemoveChar(s: string, c: char): string
  {
    if c !in s then s
    else if s[0] == c then RemoveChar(s[1..], c)
    else [s[0]] + RemoveChar(s[1..], c)
  }

  /** Exactly the other characters remain. */
  lemma {:induction false} RemoveCharMembership(s: string, c: char)
    ensures c !in RemoveChar(s, c)
    ensures forall x :: x in RemoveChar(s, c) <==> x in s && x != c
    ensures c !in s ==> RemoveChar(s, c) == s
  {
    RemoveCharMultiset(s, c);
    forall x
      ensures x in RemoveChar(s, c) <==> x in s && x != c
    {
      assert x in RemoveChar(s, c) <==> x in multiset(RemoveChar(s, c));
      assert x in s <==> x in multiset(s);
    }
  }

  /** `remove_char_from_string` keeps every other character with its
      multiplicity and drops all copies of `c`. */
  lemma {:induction false} RemoveCharMultiset(s: string, c: char)
    ensures multiset(RemoveChar(s, c)) == multiset(s)[c := 0]
  {
    if c in s {
      assert s == [s[0]] + s[1..];
      RemoveCharMultiset(s[1..], c);
    } else {
      assert multiset(s)[c] == 0;
    }
  }

  /** `remove_char_from_string(string.punctuation, '_')` and
      `remove_char_from_string(string.whitespace, '\n')`, written out. */
  const PunctuationWithoutUnderscore: string := PunctuationBeforeUnderscore + PunctuationAfterUnderscore
  const WhitespaceWithoutNewline: string := WhitespaceBeforeNewline + WhitespaceAfterNewline

  /** The written-out tables are what `remove_char_from_string` computes. */
  lemma RemovedUnderscore()
    ensures RemoveChar(Punctuation, '_') == PunctuationWithoutUnderscore
  {
    RemoveSingle(PunctuationBeforeUnderscore, '_', PunctuationAfterUnderscore);
  }

  lemma RemovedNewline()
    ensures RemoveChar(Whitespace, '\n') == WhitespaceWithoutNewline
  {
    RemoveSingle(WhitespaceBeforeNewline, '\n', WhitespaceAfterNewline);
  }

  /** Removing a character that occurs once joins the text around it. */
  lemma {:induction false} RemoveSingle(a: string, c: char, b: string)
    requires c !in a && c !in b
    ensures RemoveChar(a + [c] + b, c) == a + b
  {
    var s := a + [c] + b;
    assert c in s by { assert s[|a|] == c; }
    if |a| == 0 {
      assert s[1..] == b;
    } else {
      assert s[1..] == a[1..] + [c] + b;
      RemoveSingle(a[1..], c, b);
      assert a == [a[0]] + a[1..];
    }
  }

  /** The pool the `.` token draws from: the table characters with the
      newline removed. */
  const DotPool: string := Lowercase + Uppercase + Digits + Punctuation + WhitespaceWithoutNewline

  /** `.` draws from every table character except the newline. */
  lemma DotPoolMembership(x: char)
    ensures x in DotPool <==> x in AllChars && x != '\n'
  {
    TableMembership();
  }

  /** `process_escaped_character`: the candidate characters of `\c`; a letter
      outside the table and a non-metacharacter give nothing. */
  function EscapeSet(c: char): string
  {
    if c == 'd' then Digits
    else if c == 'D' then Lowercase + Uppercase + Whitespace + Punctuation
    else if c == 'w' then Lowercase + Uppercase + Digits + "_"
    else if c == 'W' then PunctuationWithoutUnderscore + Whitespace
    else if c == 's' then Whitespace
    else if c == 'S' then Lowercase + Uppercase + Digits + Punctuation
    else if IsMetachar(c) then [c]
    else []
  }

  /** A class letter selects a non-empty class, a metacharacter stands for
      itself, and any other escaped character stands for nothing. */
  lemma EscapeSetShape(c: char)
    ensures IsMeaningfulEscape(c) ==> |EscapeSet(c)| > 0
    ensures !IsClassLetter(c) && IsMetachar(c) ==> EscapeSet(c) == [c]
    ensures !IsMeaningfulEscape(c) ==> EscapeSet(c) == []
  {
  }

  /** What each escape class means, character by character. */
  lemma EscapeSetMembership(c: char, x: char)
    ensures c == 'd' ==> (x in EscapeSet(c) <==> IsDigit(x))
    ensures c == 'D' ==> (x in EscapeSet(c) <==> x in AllChars && !IsDigit(x))
    ensures c == 'w' ==> (x in EscapeSet(c) <==> IsLetter(x) || IsDigit(x) || x == '_')
    ensures c == 'W' ==> (x in EscapeSet(c) <==> x in AllChars && !IsLetter(x) && !IsDigit(x) && x != '_')
    ensures c == 's' ==> (x in EscapeSet(c) <==> IsSpace(x))
    ensures c == 'S' ==> (x in EscapeSet(c) <==> x in AllChars && !IsSpace(x))
    ensures x in EscapeSet(c) ==> x in AllChars
  {
    TableMembership();
    if c == 'W' {
      PunctuationWithoutUnderscoreMembership();
    } else if !IsClassLetter(c) && IsMetachar(c) {
      assert IsPunct(c);
    }
  }

  lemma PunctuationWithoutUnderscoreMembership()
    ensures forall x :: x in PunctuationWithoutUnderscore <==> IsPunct(x) && x != '_'
  {
    RemovedUnderscore();
    RemoveCharMembership(Punctuation, '_');
    PunctuationMembership();
  }

  /** `\d`/`\D`, `\w`/`\W` and `\s`/`\S` split the table alphabet in two. */
  lemma EscapeComplements(x: char)
    requires x in AllChars
    ensures x in EscapeSet('d') <==> x !in EscapeSet('D')
    ensures x in EscapeSet('w') <==> x !in EscapeSet('W')
    ensures x in EscapeSet('s') <==> x !in EscapeSet('S')
  {
    EscapeSetMembership('d', x);
    EscapeSetMembership('D', x);
    EscapeSetMembership('w', x);
    EscapeSetMembership('W', x);
    EscapeSetMembership('s', x);
    EscapeSetMembership('S', x);
  }

  /** Exactly ten digits make up `\d`. */
  lemma DigitClassSize()
    ensures |EscapeSet('d')| == 10
  {
  }
}
