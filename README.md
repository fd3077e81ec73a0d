# Random strings from a regular expression — a Dafny model

This project models the `Generator` class of `generator_0.4.py`. The class
turns a regular expression into one random string that the expression
describes. `generate` strips the enclosing slashes. `process_regex_string`
finds the first outer capture group, draws how many times to repeat it and
recurses into the text before it, its body and the text after it. Text
without groups is cut at square brackets and handed to
`process_regular_regex`. That function walks the text token by token: an
escape (`\d`, `\w`, `\.` …), a bracket list (`[a-f]`, `[^abc]`), a dot, an
anchor or a literal. Each token may be followed by a quantifier (`*`, `+`,
`?`, `{n}`, `{m,n}`). Every token appends random draws from its candidate
characters.

The model has these parts:

- **Values.** Quantifiers (`Quantifiers.Quantifier`, with Python's `None`
  as `Missing`), character classes (`CharClass.ClassItem`), tokens
  (`Tokens.Token`) and the fixed `string` tables (`Alphabet`) are values.
- **The generator object.** `Engine.Generator` is a class. Its `result`
  field grows as the Python attribute does. It is never reset between
  `generate` calls.
- **Loops.** The scanning loops of `build_bracket_collection`,
  `get_outer_brackets`, `process_logical_or` and `process_regular_regex`
  are methods with `while` loops. Each is proved against a function that
  states what the loop computes or, where the loop draws at random
  (`process_logical_or`, `process_regular_regex`), against a ghost
  relation that states every result it may produce.
- **Randomness.** `random.randint` and `random.choice` become
  nondeterministic choice (`:|`). What the generator can produce is given
  by ghost relations: `Tokens.WalkOutcome`, `Tokens.RegularOutcome`,
  `Engine.SplitOutcome`, `Engine.PatternEffect` and their parts. Each
  relation lists every outcome some sequence of draws can reach. Every
  method is proved to produce one of those outcomes. The lemmas in
  `Properties` then say what the outcomes of whole patterns are.
- **Exceptions.** Python exceptions are values of `Common.Error`:
  `IndexError`, `TypeError` and `ValueError`. They are raised where the
  Python code raises them, in the order it evaluates things. When
  `process_regex_string` raises, the text already appended to `result`
  stays there. `Engine.Effect` records that text together with the
  exception.

## Where the code differs from its own documentation

The model follows the code in each case below.

- **One-sided quantifier blocks.** `{m,}` and `{,n}` are documented as
  "m or more" and "up to n". The defaulting code is commented out
  (generator_0.4.py:419-422), so `int(None)` raises TypeError.
  `Quantifiers.OpenAboveBlockRaises`, `Quantifiers.OpenBelowBlockRaises`
  and `Properties.OpenAboveGroup` state this.
- **Unclosed groups.** An unescaped `(` without a `)` to close it raises
  IndexError when `brackets[1]` is read. `Properties.UnclosedGroupRaises`
  states this for patterns with no `)` and no backslash at all.
- **Empty candidate sets.** An empty candidate set is not refused up
  front.
  - A bracket list whose collection is empty raises IndexError from
    `random.choice`.
  - An escape of a character with no meaning emits nothing.
- **Lookbehind.** Only `(?:`, `(?=` and `(?!` are skipped. `(?<=` and
  `(?<!` are processed as capture groups.
- **The dot.** A `.` moves the index past the character after it (or past
  its quantifier), so that character is never processed
  (`TokenFacts.DotSkipsNext`).
- **The character before index 0.** `get_outer_brackets` tests
  `regex_string[(index - 1)] != '\\'` to tell an escaped parenthesis. At
  index 0 Python reads the last character of the text, so a `(` that opens
  a pattern ending in a backslash is taken as escaped (`Groups.Prev`). This
  is why the group lemmas ask that the text does not end in a backslash.
- **Quantifiers after bracket lists.** The documentation lists quantifiers
  and bracket lists (generator_0.4.py:17-29), but
  `split_regular_regex_on_square_brackets` cuts the run right after the
  first `]`. The list is therefore walked on its own and draws exactly once.
  Whatever follows, a quantifier included, is processed as a separate run,
  where `{` at the start is an ordinary character. So `a[b]{2}` yields `ab`
  followed by the literal text `{2}` (`Properties.QuantifierAfterListIsText`,
  `Properties.ListThenRest`).
- **Brackets at the start of a run.** A bracket list at the very start of
  a run without groups emits nothing. Only text before the first `[` makes
  `split_regular_regex_on_square_brackets` process the list
  (`Properties.LeadingBracketPattern`).

## Model

| member | source | states |
|---|---|---|
| Common.Slice | generator_0.4.py:52 | Python's `s[a:b]`: the plain slice when the bounds are in order and in range, empty when `b <= a`, never longer than `s` |
| Common.FindFrom | generator_0.4.py:202-203 | the first index at or after `from` holding `c`, or None exactly when there is none (`str.index` and the `for ... break` searches) |
| Common.FindLast | generator_0.4.py:51 | `str.rfind`: the last index holding `c`, or None exactly when `c` does not occur |
| Alphabet.TableMembership | generator_0.4.py:220 | each `string` table, and `all_chars`, holds exactly the characters of its code-point ranges |
| Alphabet.RemoveCharMembership | generator_0.4.py:445-453 | `remove_char_from_string` removes `c` and keeps exactly the other characters; without `c` the text is returned unchanged |
| Alphabet.RemoveCharMultiset | generator_0.4.py:445-453 | every other character keeps its multiplicity and all copies of `c` are gone (`str.replace(c, "")`) |
| Alphabet.RemovedUnderscore | generator_0.4.py:301 | punctuation without `_` is the table written around the underscore |
| Alphabet.RemovedNewline | generator_0.4.py:171 | whitespace without newline is the table written around the newline |
| Alphabet.PunctuationWithoutUnderscoreMembership | generator_0.4.py:300-303 | the punctuation without `_` holds exactly the punctuation characters other than `_` |
| Alphabet.DotPoolMembership | generator_0.4.py:171-174 | the dot draws from exactly the table characters other than newline |
| Alphabet.EscapeSetShape | generator_0.4.py:275-320 | a class letter gives a non-empty set, an escaped metacharacter gives exactly itself, any other character gives the empty list |
| Alphabet.EscapeSetMembership | generator_0.4.py:280-317 | `\d` is the digits, `\D` the table minus digits, `\w` letters, digits and `_`, `\W` the table minus those, `\s` whitespace, `\S` the table minus whitespace; every escape draws from the table |
| Alphabet.EscapeComplements | generator_0.4.py:280-317 | on the table alphabet `\d`/`\D`, `\w`/`\W` and `\s`/`\S` are complements |
| Alphabet.DigitClassSize | generator_0.4.py:280-282 | `\d` is exactly ten characters |
| CharClass.ItemsRender | generator_0.4.py:251-271 | the scan of a bracket list reads every character exactly once: rendering the items gives back the text |
| CharClass.CodeRange | generator_0.4.py:229-230 | the characters appended for `range(lo, hi)` are exactly those with codes in `[lo, hi)` |
| CharClass.CollectMembership | generator_0.4.py:251-271 | a character is collected exactly when some item of the list stands for it |
| CharClass.WithoutMembership | generator_0.4.py:246-248 | the negated collection keeps exactly the characters of the alphabet not in the exclusion list |
| CharClass.NegatedClassMembership | generator_0.4.py:222-248 | with a leading `^`, a character is a candidate exactly when it is in `all_chars` and no item covers it |
| CharClass.PositiveClassMembership | generator_0.4.py:250-271 | without `^`, a character is a candidate exactly when some item covers it |
| CharClass.RangeItemContributes | generator_0.4.py:254-256 | a range `x-y` contributes every character with code between those of x and y inclusive; in a negated list none of them is drawn |
| CharClass.LiteralItemIncluded | generator_0.4.py:262-270 | every literal of a positive list is a candidate; no literal of a negated list is |
| CharClass.NegatedClassWithinAlphabet | generator_0.4.py:246-248 | a negated list draws only from `all_chars` |
| CharClass.BuildBracketCollection | generator_0.4.py:215-272 | IndexError on an empty list, otherwise the collection `ClassOf` describes |
| CharClass.KeepUncovered | generator_0.4.py:246-248 | the loop over `all_chars` keeps, in order, the characters not in the exclusion list |
| CharClass.ScanItems | generator_0.4.py:251-271 | the scanning loop appends the characters of every item in scan order |
| CharClass.ScanItem | generator_0.4.py:253-271 | one pass of the loop body appends the first item's characters and moves past it |
| CharClass.AppendRange | generator_0.4.py:255-256 | the inner `for` loop appends the range's characters after what was collected |
| Quantifiers.ProcessQuantifierBlock | generator_0.4.py:392-410 | without a comma both bounds are the inner text; with one, the bounds are the texts on each side of the first comma and an empty side is None |
| Quantifiers.QuantifierAt | generator_0.4.py:370-389 | None exactly for a `{` with no `}` after it; a `{...}` block occupies the text up to the first `}`; `*`, `+`, `?` occupy one character and anything else none |
| Quantifiers.ParseDecimal | generator_0.4.py:89 | `int` of a text succeeds exactly on a non-empty run of digits |
| Quantifiers.ParseDecimalRoundTrip | generator_0.4.py:89 | parsing the decimal text of `n` gives back `n` |
| Quantifiers.IntOf | generator_0.4.py:89 | `int(None)` raises TypeError, a fixed count is itself, a text converts exactly when it parses |
| Quantifiers.RepeatRange | generator_0.4.py:413-423 | a range exists exactly when both bounds convert and the minimum does not exceed the maximum (`randint` raises ValueError otherwise); a None quantifier raises TypeError |
| Quantifiers.RepeatRangeValue | generator_0.4.py:89 | a range is exactly the two bounds converted by `int`, and the first bound that cannot be converted gives the exception |
| Quantifiers.FixedQuantifierRanges | generator_0.4.py:375-389 | `*` gives 0 to the ceiling, `+` 1 to the ceiling (ValueError for a ceiling of 0), `?` 0 to 1, anything but `{` exactly 1 |
| Quantifiers.BlockAt | generator_0.4.py:381-387 | a `{...}` block yields the bounds `process_quantifier_block` reads and occupies its own length |
| Quantifiers.ExactBlockRange | generator_0.4.py:406-408 | `{n}` means exactly n and occupies its length |
| Quantifiers.RangeBlockRange | generator_0.4.py:400-405 | `{m,n}` means m to n when m <= n and raises ValueError otherwise |
| Quantifiers.RangeBlockBounds | generator_0.4.py:400-405 | the bounds of `{a,b}` are the texts on each side of the comma, an empty side being None |
| Quantifiers.OpenAboveBlockRaises | generator_0.4.py:404-405 | `{m,}` raises TypeError (the maximum is None) |
| Quantifiers.OpenBelowBlockRaises | generator_0.4.py:402-403 | `{,n}` raises TypeError (the minimum is None) |
| Quantifiers.CheckForQuantifier | generator_0.4.py:370-389 | `check_for_quantifier` returns the quantifier `QuantifierAt` describes |
| Quantifiers.FindClosingBrace | generator_0.4.py:381-383 | the search loop after `{` finds the first `}` at or after it, or none |
| Quantifiers.GetRandomNumberBetween | generator_0.4.py:413-423 | ValueError when min > max, otherwise a number between both bounds inclusive |
| Quantifiers.DrawRepeatCount | generator_0.4.py:89 | the repeat count lies in the quantifier's range, or the exception reading the range raises is returned |
| Groups.FirstOpen | generator_0.4.py:349-352 | the first unescaped `(` at or after `i`, and none before it |
| Groups.CloseFromFindsClose | generator_0.4.py:358-366 | the depth-tracking scan stops at the first `)` where the parentheses in between balance, and finds nothing when there is none |
| Groups.OuterBrackets | generator_0.4.py:342-367 | empty exactly when there is no unescaped `(`; otherwise the first unescaped `(` and, when there is one, the first later `)` at which the unescaped parentheses in between balance |
| Groups.GetOuterBrackets | generator_0.4.py:342-367 | the two scanning loops compute `OuterBrackets` |
| Alternation.BetweenConsecutiveBars | generator_0.4.py:329-331 | no `|` lies between two consecutive recorded positions |
| Alternation.ProcessLogicalOr | generator_0.4.py:323-339 | the result is one of the `|`-delimited parts, a contiguous slice of the input with no `|` in it |
| Alternation.PartDeterminedByStart | generator_0.4.py:334-339 | a part is determined by where it starts |
| Alternation.OuterPartsAreChoices | generator_0.4.py:334-337 | the text before the first `|` and the text after the last are both possible results |
| Alternation.TwoParts | generator_0.4.py:323-339 | with one `|`, the result is the text before it or the text after it |
| Tokens.TokenAt | generator_0.4.py:108-191 | a token that does not raise moves the index forward and has a non-empty repeat range |
| Tokens.ReturnRandomItemFromCollection | generator_0.4.py:426-430 | IndexError on an empty collection, otherwise one of its characters |
| Tokens.DrawMany | generator_0.4.py:159-160 | `amount` draws, each from the pool, or IndexError when the pool is empty and a draw is made |
| Tokens.DrawToken | generator_0.4.py:159-160 | the draws of a token are a text the token can emit, or IndexError from an empty pool |
| Tokens.DrawQuantified | generator_0.4.py:151-154 | the quantifier after a token is read and a count drawn from its range, or its exception returned |
| Tokens.ProcessToken | generator_0.4.py:108-191 | one pass of the walk: the step the token at the index describes |
| Tokens.ProcessEscape | generator_0.4.py:111-143 | the backslash branch of the walk |
| Tokens.ProcessBracket | generator_0.4.py:144-162 | the `[` branch of the walk |
| Tokens.FindClosingBracket | generator_0.4.py:145-149 | the search loop finds the first `]` after the `[` |
| Tokens.ProcessDot | generator_0.4.py:163-175 | the `.` branch of the walk |
| Tokens.ProcessLiteral | generator_0.4.py:178-190 | the branch for any other character |
| Tokens.ProcessQuantified | generator_0.4.py:179-188 | a quantified draw from a fixed pool |
| Tokens.ProcessRegularRegex | generator_0.4.py:100-192 | `process_regular_regex` produces one of the outcomes `RegularOutcome` allows |
| Tokens.WalkTokens | generator_0.4.py:107-191 | the `while index < len` loop produces one of the outcomes `WalkOutcome` allows |
| TokenFacts.PlainToken | generator_0.4.py:178-190 | an ordinary character not followed by a quantifier is a token drawing itself once |
| TokenFacts.PlainWalk | generator_0.4.py:178-190 | from a position after which every character is ordinary, the walk yields exactly the rest of the run |
| TokenFacts.AnchorSkipped | generator_0.4.py:176-177 | `^` and `$` emit nothing |
| TokenFacts.FixedSingleDraw | generator_0.4.py:187-188 | a one-character pool with a fixed count emits exactly that many copies |
| TokenFacts.QuantifiedLiteral | generator_0.4.py:179-182 | a literal followed by any quantifier is a token whose range is that quantifier's range and which ends after the quantifier's characters |
| TokenFacts.Unquantified | generator_0.4.py:183-186 | at the end of the run, or before a character that starts no quantifier, the count is exactly 1 |
| TokenFacts.ExactLiteralRepeat | generator_0.4.py:179-190 | a literal followed by a quantifier whose range is exactly n (such as `{n}`, see `Quantifiers.ExactBlockRange`) is a token repeated exactly n times that ends after the quantifier, and emits exactly n copies of itself |
| TokenFacts.DrawnQuantified | generator_0.4.py:151-160 | any pool under a quantifier whose range is (lo, hi) is a token drawing lo to hi times from that pool, and the walk resumes past the quantifier's characters |
| TokenFacts.QuantifiedDot | generator_0.4.py:163-175 | a `.` followed by any quantifier is a token over the dot's pool with that quantifier's range; the walk resumes one character after the quantifier |
| TokenFacts.QuantifiedEscape | generator_0.4.py:111-115 | a meaningful escape followed by any quantifier is a token drawing from the escape's set, with that quantifier's range, ending after the quantifier's characters |
| TokenFacts.DigitEscapeRepeat | generator_0.4.py:111-122 | `\d` followed by a quantifier whose range is exactly n (such as `{n}`) is a token drawing n times from the digits, so it emits exactly n characters, each a digit |
| TokenFacts.TrailingBackslashRaises | generator_0.4.py:116-120 | the `\` token at the last position of a run, when the walk reaches it there, raises IndexError: no escaped character follows |
| TokenFacts.MeaninglessEscapeEmitsNothing | generator_0.4.py:139-141 | an escape of a character with no meaning emits nothing and cannot raise on a draw |
| TokenFacts.DotSkipsNext | generator_0.4.py:163-175 | an unquantified dot draws once and the walk resumes two characters later |
| TokenFacts.DotNeverNewline | generator_0.4.py:171-174 | a dot never emits a newline and emits only table characters |
| TokenFacts.EmptyBracketRaises | generator_0.4.py:145-150 | a `[` token at position i followed by `]`, when the walk reaches it, raises IndexError (`build_bracket_collection` reads `regex_string[0]` of the empty list) |
| TokenFacts.FinalBracketRaises | generator_0.4.py:145-150 | the `[` token at the last position of a run, when the walk reaches it there, raises IndexError: its list text is empty |
| TokenFacts.UnclosedBracketRaises | generator_0.4.py:145-151 | a `[` followed by at least one character and no `]` after it raises TypeError (`None + 1`) |
| TokenFacts.BracketDrawsOne | generator_0.4.py:144-162 | an unquantified bracket list draws once from its collection and the walk resumes after its `]` |
| TokenFacts.TwoAlternatives | generator_0.4.py:105-106 | a run `x|y` of ordinary characters yields exactly x or y |
| Engine.SplitRegularRegexOnSquareBrackets | generator_0.4.py:195-212 | `split_regular_regex_on_square_brackets` produces one of the outcomes `SplitOutcome` allows |
| Engine.Generator.constructor | generator_0.4.py:44-46 | a new generator has an empty result and the given ceiling |
| Engine.Generator.Generate | generator_0.4.py:49-57 | IndexError on an empty regex; otherwise the pattern between the slashes is processed, `result` only grows, and the whole `result` is returned unless an exception escaped |
| Engine.Generator.ProcessRegexString | generator_0.4.py:60-97 | `result` only grows, and what was appended, with any exception, is an effect `PatternEffect` allows |
| Engine.Generator.ProcessGroup | generator_0.4.py:67-94 | the group branch: quantifier read first, then the text before the group, the body, and the text after the quantifier |
| Engine.Generator.ProcessGroupTail | generator_0.4.py:93-94 | the text after the group and its quantifier is processed when there is any; a None quantifier raises TypeError |
| Engine.Generator.ProcessGroupBody | generator_0.4.py:80-91 | a skipped group adds nothing; otherwise the body is processed a drawn number of times |
| Engine.Generator.RepeatPass | generator_0.4.py:91 | one pass of the `for` loop: after i passes that raised nothing, `result` grows by an effect of i + 1 passes |
| Engine.Generator.RepeatGroup | generator_0.4.py:89-91 | the `for` loop processes the body `amount` times, stopping at the first exception |
| Engine.RaisedRepeatStays | generator_0.4.py:90-91 | once a pass raises, no further pass changes anything |
| Properties.RegularPlain | generator_0.4.py:178-190 | a run of ordinary characters passed to `process_regular_regex` yields exactly itself |
| Properties.SplitWithoutBracket | generator_0.4.py:200-211 | any text without a `[` is not split: its outcomes are exactly those of one `process_regular_regex` call |
| Properties.SplitPlain | generator_0.4.py:209-211 | plain text (no metacharacter, parenthesis or `|`) splits to exactly itself |
| Properties.PlainPattern | generator_0.4.py:95-97 | a pattern of ordinary characters appends exactly itself and raises nothing |
| Properties.TimesSnoc | generator_0.4.py:90-91 | k + 1 copies are k copies followed by one more |
| Properties.RepeatPlain | generator_0.4.py:90-91 | k passes over a plain body append exactly k copies of it |
| Properties.RepeatPlainOnly | generator_0.4.py:90-91 | every effect of k passes over a plain body is k copies of it |
| Properties.RepeatPlainAll | generator_0.4.py:90-91 | k copies of a plain body is a possible effect of k passes |
| Properties.GroupBrackets | generator_0.4.py:342-367 | when no `(` stands before the first `(`, neither parenthesis is preceded by a backslash, and no parenthesis lies between them, `get_outer_brackets` returns exactly those two positions |
| Properties.WholeGroupOnly | generator_0.4.py:67-94 | a pattern made of one group of plain text p and its quantifier either raises the quantifier's exception or appends the body k times, for k in its range |
| Properties.WholeGroupRaises | generator_0.4.py:67-94 | a quantifier that cannot be read or drawn from makes the group raise its exception |
| Properties.WholeGroupRepeats | generator_0.4.py:67-94 | every count k in the quantifier's range is possible |
| Properties.QuantifiedGroup | generator_0.4.py:67-94 | `(p)q` with p plain text, where q is exactly the text `check_for_quantifier` consumes after the `)` and does not end in a backslash, raises exactly the exception of the quantifier q, or appends exactly p repeated k times for some k in q's range, and every such k is possible |
| Properties.BareGroup | generator_0.4.py:71-91 | for plain text p, `(p)` appends exactly p |
| Properties.StarGroup | generator_0.4.py:71-91 | for plain text p, `(p)*` appends p repeated k times for some k from 0 to the ceiling, and every such k is possible |
| Properties.PlusGroup | generator_0.4.py:71-91 | for plain text p, `(p)+` appends p repeated 1 to ceiling times; with a ceiling of 0 it raises ValueError |
| Properties.OptionalGroup | generator_0.4.py:71-91 | for plain text p, `(p)?` appends nothing or exactly p |
| Properties.ExactGroup | generator_0.4.py:71-91 | for plain text p, `(p){n}` appends exactly n copies of p |
| Properties.RangeGroup | generator_0.4.py:71-91 | for plain text p, `(p){m,n}` appends p k times for some k from m to n, every such k possible; ValueError when m > n |
| Properties.OpenAboveGroup | generator_0.4.py:71-91 | for plain text p, `(p){m,}` raises TypeError |
| Properties.QuantifiedGroupInText | generator_0.4.py:67-94 | `x(p)q z` with plain x, p and z, where q is exactly the text `check_for_quantifier` consumes after the `)` and does not end in a backslash: when q's range fails, exactly x is appended and then q's exception raised; otherwise exactly x, then p repeated k times, then z, for some k in q's range, and every such k is possible |
| Properties.GroupInTextEffect | generator_0.4.py:67-94 | the same for any pattern of that shape, once its group is found |
| Properties.GroupInTextOnly | generator_0.4.py:76-94 | every effect of such a group is x and the exception, or x, k copies of p and z |
| Properties.GroupInTextRaises | generator_0.4.py:76-88 | x followed by the quantifier's exception is a possible effect |
| Properties.GroupInTextRepeats | generator_0.4.py:76-94 | x, then k copies of p, then z is a possible effect for every k in range |
| Properties.GroupInTextBrackets | generator_0.4.py:342-367 | `get_outer_brackets` finds the group of `x(p)q z` at the `(` and `)` around p |
| Properties.BodyOnly | generator_0.4.py:86-91 | the body of an unskipped group of plain text raises the quantifier's exception, or appends p k times for a k in range |
| Properties.BodyRepeats | generator_0.4.py:86-91 | every k in range is a possible body effect |
| Properties.AfterQuantifierPlain | generator_0.4.py:92-93 | the plain text after the quantifier is appended exactly, or nothing when the quantifier ends the pattern |
| Properties.SkippedGroupPattern | generator_0.4.py:77-94 | `x(?:y)z`, `x(?=y)z` and `x(?!y)z` with plain parts append exactly x then z |
| Properties.SkippedPattern | generator_0.4.py:77-94 | a skipped group with plain text around it appends exactly the text around it |
| Properties.SkippedOnly | generator_0.4.py:80-85 | every effect of such a group is the text before it followed by the text after it |
| Properties.SkippedAll | generator_0.4.py:80-85 | the text before followed by the text after is a possible effect |
| Properties.UnclosedGroupRaises | generator_0.4.py:67-71 | a pattern holding a `(`, no `)` and no backslash raises IndexError and appends nothing |
| Properties.MissingCloseBracketPattern | generator_0.4.py:201-203 | a pattern holding a `[`, no `]` and no `(` raises ValueError (`str.index`) |
| Properties.LeadingBracketPattern | generator_0.4.py:204-208 | a pattern that is one bracket list `[c]`, with no `]` and no `(` in c, appends nothing |
| Properties.SingleDrawWalk | generator_0.4.py:159-160 | a walk of one token drawing once yields one character from its pool, or IndexError when the pool is empty |
| Properties.BracketAfterText | generator_0.4.py:201-208 | non-empty plain text x without `]`, followed by a list `[c]` with c non-empty and without `]` that ends the run, yields the text and one character drawn from the list's collection, or IndexError when the collection is empty |
| Properties.BracketListAfter | generator_0.4.py:201-208 | for any run made of non-empty plain text without `]`, a `[`, a non-empty list with no `]`, and a final `]`, the split yields exactly the text before the `[` followed by one draw from the list's collection |
| Properties.DrawAfterTextOnly | generator_0.4.py:204-208 | every outcome of text followed by a list that draws once is the text plus one draw |
| Properties.DrawAfterTextAll | generator_0.4.py:204-208 | the text plus any one draw is a possible outcome |
| Properties.SplitAfterTextOnly | generator_0.4.py:204-208 | every outcome of text followed by a list ending the run is the text in front of an outcome of the walk over the list |
| Properties.SplitAfterTextAll | generator_0.4.py:204-208 | the text in front of any outcome of that walk is a possible outcome |
| Properties.ListThenRest | generator_0.4.py:201-208 | non-empty plain text x without `]`, a list `[c]` with c non-empty and without `]`, then any non-empty rest t: the split yields x and one draw from the list's collection (IndexError when it is empty), followed by an outcome of splitting t alone |
| Properties.ListRestEffect | generator_0.4.py:201-208 | the same for any run of that shape |
| Properties.ListRestOnly | generator_0.4.py:201-208 | every outcome of such a split is x, one draw, then an outcome of t |
| Properties.ListRestAll | generator_0.4.py:201-208 | each such combination is a possible outcome |
| Properties.ListFrame | generator_0.4.py:201-203 | `str.index` finds the `[` and the `]` of `x[c]t` at the list's own brackets |
| Properties.ListDraw | generator_0.4.py:204-205 | the split-off list `[c]`, processed alone, draws exactly once from its collection |
| Properties.QuantifierAfterListIsText | generator_0.4.py:201-208 | text, a list, then `{` and plain text d (as in `a[b]{2}`): the list draws once and the rest is emitted literally as `{` d, so `a[b]{2}` yields `a`, one `b`, then the text `{2}` |
| Properties.BraceTextSplit | generator_0.4.py:195-211 | `{` followed by plain text is split and processed to exactly itself |
| Properties.BraceTextWalk | generator_0.4.py:176-190 | at the start of a run `{` is an ordinary character: the walk over `{` and plain text yields exactly that text |
| Properties.RegularWithBracket | generator_0.4.py:105 | any run holding a `[` is walked whole, without looking for `|` |
| Properties.AlternativesPattern | generator_0.4.py:323-339 | a pattern `x|y` of ordinary characters appends exactly x or exactly y |
| Properties.SlashesStripped | generator_0.4.py:50-52 | `/p/tail` hands exactly p to `process_regex_string` |
| Properties.LoneSlash | generator_0.4.py:50-52 | `/p` with no second slash hands the empty pattern on (`rfind` finds index 0) |

## Definitions

The functions and relations below encode what the program does. They
carry no contract of their own; the members in "## Model" are proved
against them.

| definition | source | encodes |
|---|---|---|
| Alphabet.RemoveChar | generator_0.4.py:445-453 | `remove_char_from_string`: the text with every copy of the character removed |
| Alphabet.EscapeSet | generator_0.4.py:275-320 | `process_escaped_character`: the candidates of `\d \D \w \W \s \S` built from the `string` tables, the character itself for an escaped metacharacter, nothing otherwise |
| CharClass.Items | generator_0.4.py:222-270 | the item scan of `build_bracket_collection`: a range `x-y` when a `-` follows with room for its end, an escape pair, or a single character |
| CharClass.ClassOf | generator_0.4.py:215-272 | the collection of a list text: the covered characters, or after `^` the characters of `all_chars` not covered |
| Groups.Prev | generator_0.4.py:350 | `regex_string[(index - 1)]`: the character before `index`, which at index 0 is the last character of the text (Python's negative index) |
| Engine.IsSkippedGroup | generator_0.4.py:80-85 | the three `?:`, `?=`, `?!` tests after the `(` whose bodies are not processed |
| Tokens.QuantifierAfter | generator_0.4.py:71-75 | the quantifier read after a token or group, or one repetition taking no characters when nothing follows (also lines 112-119, 151-158, 164-170, 179-186) |
| Tokens.Emits | generator_0.4.py:158-159 | the `for i in range(random_amount)` draw loops: between lo and hi characters, each from the pool |
| Tokens.DrawFails | generator_0.4.py:158-159 | a draw loop that makes at least one draw from an empty collection: `random.choice` raises IndexError |
| Engine.Repeats | generator_0.4.py:88-91 | the group's repeat count drawn between the quantifier's bounds and that many passes made |
| Alternation.Delimits | generator_0.4.py:334-339 | a part `process_logical_or` returns: from the start or just after a `|` to the end or just before one, holding no `|` |
| Groups.CloseFrom | generator_0.4.py:357-366 | the closing scan of `get_outer_brackets`: the first unescaped `)` met at depth 0, counting unescaped `(` and `)` on the way |
| Tokens.EscapeToken | generator_0.4.py:111-143 | the backslash branch: quantifier after the escaped character, IndexError when the backslash ends the run, the escape set as pool |
| Tokens.BracketToken | generator_0.4.py:144-162 | the `[` branch: list text to the first `]`, IndexError on an empty text, TypeError without a `]`, then the quantifier after the `]` |
| Tokens.DotToken | generator_0.4.py:163-175 | the `.` branch: the dot's pool under the quantifier after the dot, resuming one character further (generator_0.4.py:175) |
| Tokens.LiteralToken | generator_0.4.py:178-190 | the branch for any other character: the character itself under the quantifier after it |
| Tokens.QuantifiedToken | generator_0.4.py:151-158 | the shared tail of the branches: read the quantifier, convert its bounds, advance past its characters |
| Tokens.WalkOutcome | generator_0.4.py:107-192 | the `while` walk of `process_regular_regex`: each token's draws followed by the rest of the walk, or the first exception |
| Tokens.RegularOutcome | generator_0.4.py:100-192 | `process_regular_regex`: one bar-delimited part walked when there is a `|` and no `[`, otherwise the whole run walked |
| Engine.SplitOutcome | generator_0.4.py:195-212 | `split_regular_regex_on_square_brackets`: text before the first `[`, then the list up to the first `]`, then the rest split again; the whole run when there is no `[` |
| Engine.PatternEffect | generator_0.4.py:60-97 | `process_regex_string`: the group branch when `get_outer_brackets` finds a `(`, otherwise the split of the whole pattern |
| Engine.GroupEffect | generator_0.4.py:67-94 | the group branch: quantifier read first, then the text before the group, the body, and the text after |
| Engine.BodyEffect | generator_0.4.py:77-91 | the body of a group: nothing for `(?:`, `(?=`, `(?!`, otherwise a drawn number of passes |
| Engine.AfterEffect | generator_0.4.py:92-94 | the text after the group and its quantifier, processed when there is any; TypeError on a None quantifier |
| Engine.RepeatEffect | generator_0.4.py:90-91 | k passes over the body, stopping at the first exception |
| Engine.PatternOf | generator_0.4.py:50-55 | the text `generate` hands on: between the first and last `/`, or the whole text; IndexError on an empty regex |

## Left out

- Randomness: `random.randint` and `random.choice` are nondeterministic choices. Uniformity, and which characters eventually appear, are not stated.
- The `print` diagnostics for skipped groups (generator_0.4.py:81-85) and for "wrong syntax" (generator_0.4.py:56) are output only, so they are not modelled. The `else` that prints "wrong syntax" cannot be reached.
- The interactive script at the end of the file (`input()`, `print`, instantiation) is I/O and not modelled.
- `remote_item_from_collection` is not modelled because nothing calls it.
- The ceiling `max_repeat` is a natural number. Python accepts any value there: a negative one would make `*` and `+` raise ValueError, and a non-integer would fail inside `randint`.
- Quantifiers.ParseDecimal: `int()` is modelled on non-empty runs of ASCII digits only. Python also accepts surrounding whitespace, a sign, underscores between digits and non-ASCII digits. Blocks such as `{ 2}` or `{-1}` raise ValueError in the model but not in Python.
- CharClass.CodeRange: a range spanning the surrogate code points (U+D800 to U+DFFF) skips them, since a Dafny `char` cannot hold them. Python appends them.
- The punctuation without `_` and the whitespace without newline are written out as constants. `Alphabet.RemovedUnderscore` and `Alphabet.RemovedNewline` prove they equal what `remove_char_from_string` computes.
- Python's recursion limit, memory exhaustion and other runtime failures outside the code's own exceptions are not modelled.
- `str(...)` applied to the string returned by the split step is the identity, so it is not modelled.
- The quantified branch for bracket lists in `process_regular_regex` (generator_0.4.py:151-154) cannot be reached from `generate`. The split hands every list over as a run of its own that ends at its `]`, so no quantifier ever follows a list inside a walk (`Properties.ListThenRest`). `Tokens.BracketToken` still models the branch, and `TokenFacts.DrawnQuantified` states what any pool under any quantifier gives. The bracket instance of that fact is not stated as a lemma of its own; `TokenFacts.BracketDrawsOne` covers the list as the split hands it over.
