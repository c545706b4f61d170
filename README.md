# AtCoder solutions in Rust, modelled in Dafny

This project models nine solutions of the `atcoder-rust` repository. Each
solution is one binary under `src/bin/`. The models are written in Dafny and
their properties are proved.

The eight batch solutions share one shape:
- `ParsedInput::try_from` turns the input lines into a record, or returns a
  fixed error message.
- `solve` computes the answer line.

Each gets one module:
- `PracticeA` (practice_a) adds two numbers and a string.
- `Abc042A` checks for a haiku.
- `Abc042B` builds the least concatenation of strings.
- `Abc042C` finds the least amount that avoids the disliked digits.
- `Abc042D` counts grid paths around a blocked corner.
- `Abc043A` sums 1..n.
- `Abc043B` replays an editor with a backspace key.
- `Abc043C` finds the cheapest common target.

In each module:
- `Parse` is `try_from`. It checks the same conditions in the same order and
  returns the same messages.
- `Solve` is `solve`. It is a function where the source is one expression. It
  is a method with its loop where the source loops (abc042_c, abc042_d,
  abc043_b, abc043_c).
- Every parser has a partner lemma: the canonical text of any value parses back
  to that value.
- Every solver is tied to an independent statement of what the answer is. The
  repository's own test cases are proved as lemmas.

The module `Text` holds what the parsers share:
- Rust's `split_ascii_whitespace` and ASCII trimming.
- `str::parse` for i32, u8 and usize: an optional `+`, a `-` only for signed
  types, and the value must be in the type's range.
- `to_string`.

practice_b is the interactive "Interactive Sorting". The program sorts the
first N capital letters by printing queries `? x y` and reading the judge's
answers. It is split into five modules:
- `PracticeBJudge` is the judge side:
  - `read_turn_input`;
  - a `Judge` class whose `Ask` prints a query and reads the answer line;
  - the order an honest judge answers from.
- `PracticeBBubble`, `PracticeBQuick` and `PracticeBMerge` are the three
  strategies. Each works in place on an `array<char>` as the Rust code does on
  `&mut [char]`. Each is proved against a function that gives the final buffer,
  the queries printed in order, and how the run ended.
- `PracticeBMain` is `read_init_input` and `main`.

The source marks two strategies "not working", and both really fail:
- Quick sort panics on a usize subtraction below zero.
- Merge sort finishes with the letters unsorted.

Both defects are modelled as written and also in corrected form. See
"## Findings".

Behaviour of practice_b's code that the model keeps as written:
- **Merge sort buffers.** `ms_top_down_split_merge` passes `a` and `b` in the
  same roles at every depth (`src/bin/practice_b.rs:112-114`). `b` is never
  written.
- **Answer characters.** `read_turn_input` accepts any first character of the
  line (`src/bin/practice_b.rs:173-180`). Its only error is end of input,
  "missing `ans`".
  - Bubble sort swaps only on `>`.
  - Quick sort and merge sort take the left letter only on `<`.
- **Reverse order.** Against a judge ranking four letters in reverse
  alphabetical order, quick sort panics (`PracticeBMain.MainQuickPanics`).
  Merge sort does not sort.
- **Letter count.** `n` is a usize, so N = 0 and N > 26 are accepted
  (`src/bin/practice_b.rs:22-23`). `take(n)` keeps at most 26 letters.

## Model

| member | source | states |
|---|---|---|
| Text.Tokens | src/bin/abc042_a.rs:67-82 | `split_ascii_whitespace`: every token is non-empty and holds no ASCII whitespace |
| Text.TokensOfUnwords | src/bin/abc042_a.rs:67-82 | splitting a line of words joined by single spaces gives back exactly those words |
| Text.NatToString | src/bin/abc042_c.rs:123 | `to_string` of a non-negative value: non-empty decimal digits whose value is the number, with no leading zero |
| Text.Trim | src/bin/abc043_c.rs:68-71 | ASCII `trim`: the result is never longer, neither end of a non-empty result is whitespace, and a string without whitespace is left as it is |
| Text.ParseInt | src/bin/abc042_a.rs:67-72 | `str::parse` for an integer type: a parsed value lies in the type's range |
| Text.ParseIntToString | src/bin/abc042_a.rs:67-72 | `parse` of what `to_string` printed gives back the value, for every type that holds it |
| Text.ParseInts | src/bin/abc043_c.rs:72-78 | collecting parsed words: every word parsed, in order, or failure exactly when some word does not parse |
| Text.ParseNumerals | src/bin/abc043_c.rs:72-78 | a list line printed with `to_string` parses back to the list |
| Text.TrimPadded | src/bin/abc043_c.rs:68-71 | trimming removes surrounding spaces from a word |
| PracticeA.Parse | src/bin/practice_a.rs:64-84 | success only with 3 lines; line 2 is kept verbatim; all three numbers are i32; any other line count gives "input must be 3 lines" |
| PracticeA.Solve | src/bin/practice_a.rs:97-101 | `solve` has no error path; it requires both i32 additions, `a + b` and then `+ c`, to be in range. What the answer line holds is stated in `SolveReadsBack` |
| PracticeA.SolveReadsBack | src/bin/practice_a.rs:97-101 | the answer line is the sum a + b + c, which parses back as an i32, then one space, then `s` unchanged |
| PracticeA.ParseRender | src/bin/practice_a.rs:64-84 | the canonical three lines of any i32 triple and string parse back to them, whatever words follow `b c` |
| PracticeA.Example1 | src/bin/practice_a.rs:109-117 | the sample "1", "2 3", "test" parses and answers "6 test" |
| PracticeA.Example2Parse | src/bin/practice_a.rs:120-128 | the second sample parses to (72, 128, 256, "myonmyon") |
| PracticeA.Example2Solve | src/bin/practice_a.rs:120-128 | the second sample answers "456 myonmyon" |
| PracticeA.ErrorLineCount | src/bin/practice_a.rs:145-149 | two lines are rejected with "input must be 3 lines" |
| PracticeA.ErrorA | src/bin/practice_a.rs:152-159 | a non-numeric or space-padded `a` is rejected with "`a` must be integer" (line 0 is not trimmed) |
| PracticeA.ErrorB | src/bin/practice_a.rs:162-169 | a malformed `b` gives "`b` must be integer" |
| PracticeA.ErrorC | src/bin/practice_a.rs:172-179 | a malformed `c` gives "`c` must be integer" |
| PracticeA.ErrorMissing | src/bin/practice_a.rs:182-199 | an empty line 1 gives "missing `b`"; a single word gives "missing `c`" |
| Abc042A.Parse | src/bin/abc042_a.rs:63-84 | success only with one line whose first three words are i32 values |
| Abc042A.Solve | src/bin/abc042_a.rs:97-105 | the answer is always "YES" or "NO" |
| Abc042A.SolveIsHaikuMultiset | src/bin/abc042_a.rs:97-105 | "YES" exactly when {a, b, c} is the multiset {5, 5, 7} |
| Abc042A.ParseRender | src/bin/abc042_a.rs:63-84 | the canonical line of any i32 triple parses back to it, whatever words follow |
| Abc042A.Example1 | src/bin/abc042_a.rs:113-118 | "5 5 7" parses and answers "YES" |
| Abc042A.Example2 | src/bin/abc042_a.rs:121-126 | "7 7 5" parses and answers "NO" |
| Abc042A.NegativeParses | src/bin/abc042_a.rs:67-72 | a negative length parses, although the message says "positive integer" |
| Abc042A.ErrorLineCount | src/bin/abc042_a.rs:143-147 | two lines give "input must be 1 line" |
| Abc042A.ErrorMissing | src/bin/abc042_a.rs:150-168 | zero, one and two words give "missing `a`", "missing `b`" and "missing `c`" |
| Abc042A.ErrorA | src/bin/abc042_a.rs:171-175 | a malformed first word gives "`a` must be positive integer" |
| Abc042A.ErrorB | src/bin/abc042_a.rs:178-182 | a malformed second word gives "`b` must be positive integer" |
| Abc042A.ErrorC | src/bin/abc042_a.rs:185-189 | a malformed third word gives "`c` must be positive integer" |
| Abc042B.Parse | src/bin/abc042_b.rs:77-97 | success only with exactly n + 1 lines; the strings are the last n lines verbatim; empty input gives "input must be (n + 1) lines" |
| Abc042B.ParseRender | src/bin/abc042_b.rs:77-97 | the canonical input for any strings and usize `l` parses back to the count, `l` and the strings |
| Abc042B.LexLe | src/bin/abc042_b.rs:112 | the order of Rust `String`s on characters: a prefix comes first; totality, antisymmetry and transitivity are the three lemmas below |
| Abc042B.LexLeTotal | src/bin/abc042_b.rs:112 | the order `sort` uses on strings is total |
| Abc042B.LexLeAntisymmetric | src/bin/abc042_b.rs:112 | the order is antisymmetric |
| Abc042B.LexLeTransitive | src/bin/abc042_b.rs:112 | the order is transitive |
| Abc042B.Insert | src/bin/abc042_b.rs:112 | insertion into a sorted sequence stays sorted and adds exactly one copy of the string |
| Abc042B.SortFragments | src/bin/abc042_b.rs:111-112 | `sort`: the result is sorted and a permutation of the input |
| Abc042B.Solve | src/bin/abc042_b.rs:110-115 | `solve` has no error path. Its answer is characterised by `SolveIgnoresOrder`, `SolveLength` and `SolveIsLeastConcatenation` |
| Abc042B.SortedPermutationUnique | src/bin/abc042_b.rs:111-112 | two sorted permutations of the same strings are equal, so the sort's result is determined |
| Abc042B.SolveIgnoresOrder | src/bin/abc042_b.rs:110-115 | the answer does not depend on the order the strings are given in |
| Abc042B.SolveLength | src/bin/abc042_b.rs:110-115 | the answer is exactly as long as all the strings together |
| Abc042B.SortedConcatenationIsLeast | src/bin/abc042_b.rs:110-115 | for strings of one length, concatenating them in sorted order is no greater than any other order |
| Abc042B.SolveIsLeastConcatenation | src/bin/abc042_b.rs:110-115 | when all strings have one length, the answer is no greater than the concatenation of any arrangement |
| Abc042B.UnequalLengthsNotLeast | src/bin/abc042_b.rs:110-115 | without equal lengths, sorting is not least: "b" < "ba", but "bab" < "bba" |
| Abc042B.Example1 | src/bin/abc042_b.rs:123-131 | the strings dxx, axx, cxx answer "axxcxxdxx" |
| Abc042B.ParseExample | src/bin/abc042_b.rs:123-131 | the sample's four lines parse to n = 3, l = 3 and the three strings |
| Abc042B.ParseErrorLines | src/bin/abc042_b.rs:148-152 | a count that does not match the lines gives "input must be (n + 1) lines" |
| Abc042B.ParseErrorMissingN | src/bin/abc042_b.rs:155-159 | an empty first line gives "missing `n`" |
| Abc042B.ParseErrorMissingL | src/bin/abc042_b.rs:162-166 | a single word gives "missing `l`" |
| Abc042B.ParseErrorN | src/bin/abc042_b.rs:169-173 | a malformed n gives "`n` must be positive integer" |
| Abc042B.ParseErrorL | src/bin/abc042_b.rs:176-183 | a malformed l gives "`l` must be positive integer" before the line count is checked |
| Abc042C.Parse | src/bin/abc042_c.rs:66-89 | success only with 2 lines, an i32 `n`, a usize `k`, and one u8 per word of line 1 |
| Abc042C.ParseRender | src/bin/abc042_c.rs:66-89 | the canonical lines of any i32 `n`, usize `k` and u8 list parse back to them |
| Abc042C.DislikedTable | src/bin/abc042_c.rs:104-110 | fails with "`d` must be list of decimal digits" exactly when some value is above 9; otherwise entry x is set exactly when x is in `d` |
| Abc042C.Acceptable | src/bin/abc042_c.rs:113-118 | true exactly when no digit of the amount's notation is marked in the table |
| Abc042C.Search | src/bin/abc042_c.rs:111-122 | returns the least acceptable amount from `n` on |
| Abc042C.TableAgrees | src/bin/abc042_c.rs:103-118 | the table test agrees with "no digit is in `d`" |
| Abc042C.Solve | src/bin/abc042_c.rs:103-125 | an error exactly when a value of `d` is not a decimal digit; otherwise the notation of the least amount at least `n` that avoids `d` |
| Abc042C.Example1 | src/bin/abc042_c.rs:133-141 | 2000 is the answer for 1000 with disliked digits 1, 3..9 |
| Abc042C.ThousandsAreDisliked | src/bin/abc042_c.rs:133-141 | with the sample's disliked digits, every amount from 1000 to 1999 is rejected |
| Abc042C.TwoThousandAvoids | src/bin/abc042_c.rs:133-141 | 2000 avoids the sample's disliked digits |
| Abc042C.ParseExample | src/bin/abc042_c.rs:218-226 | "1000 8" and "1 31 4" parse: 31 is a valid u8 |
| Abc042C.InvalidDigitExample | src/bin/abc042_c.rs:218-226 | 31 is not a decimal digit, so `solve` rejects the list |
| Abc042C.ParseErrors | src/bin/abc042_c.rs:158-195 | three lines, a missing n and a malformed n each give their message |
| Abc042C.ParseErrorsK | src/bin/abc042_c.rs:178-205 | a missing k and a malformed k each give their message |
| Abc042C.ParseErrorD | src/bin/abc042_c.rs:208-215 | a malformed word in line 1 gives "`d` must be list of positive integers" |
| Abc042D.Parse | src/bin/abc042_d.rs:68-94 | success only with one line whose first four words are usize values |
| Abc042D.ParseRender | src/bin/abc042_d.rs:68-94 | the canonical line of any four usize values parses back to them |
| Abc042D.AddReduced | src/bin/abc042_d.rs:114-117 | adding two reduced counts and subtracting the modulus once gives the reduced sum |
| Abc042D.FillRow | src/bin/abc042_d.rs:122-128 | one row of the table holds the grid row's path counts, reduced, given the row above |
| Abc042D.PathCount | src/bin/abc042_d.rs:107-131 | the last cell is the number of paths avoiding the corner, modulo 1_000_000_007 |
| Abc042D.Solve | src/bin/abc042_d.rs:107-133 | the answer is the reduced path count, in decimal |
| Abc042D.SolvedRowsAreGridRows | src/bin/abc042_d.rs:110-120 | for 1 <= a < h, the rows computed are the grid's rows |
| Abc042D.UnblockedIsBinomial | src/bin/abc042_d.rs:107-133 | with nothing blocked, the count is the binomial coefficient C(y + x, x) |
| Abc042D.BlockingRemovesPaths | src/bin/abc042_d.rs:107-133 | blocking the corner never adds paths |
| Abc042D.FirstRow | src/bin/abc042_d.rs:108 | every cell of the top row is reached one way: the table starts with ones |
| Abc042D.EdgeColumn | src/bin/abc042_d.rs:120-122 | below a free top row, column `b` is reached one way only |
| Abc042D.FirstRowFree | src/bin/abc042_d.rs:108 | every cell of row 0 is reached by exactly one path |
| Abc042D.FirstColumnFree | src/bin/abc042_d.rs:120-122 | every cell of column 0 below a free top is reached by exactly one path |
| Abc042D.Example1 | src/bin/abc042_d.rs:141-146 | h=2, w=3, a=1, b=1 has 2 paths |
| Abc042D.Example2 | src/bin/abc042_d.rs:149-154 | h=10, w=7, a=3, b=4 has 3570 paths |
| Abc042D.Example3 | src/bin/abc042_d.rs:157-165 | h=w=100000, a=b=99999 has a single path |
| Abc042D.ParseExample | src/bin/abc042_d.rs:141-146 | "2 3 1 1" parses to (2, 3, 1, 1) |
| Abc042D.ParseErrorLineCount | src/bin/abc042_d.rs:195-202 | two lines give "input must be 1 line" |
| Abc042D.ParseErrorMissing | src/bin/abc042_d.rs:205-230 | zero to three words give "missing" for `h`, `w`, `a` and `b` in turn |
| Abc042D.ParseErrorH | src/bin/abc042_d.rs:233-237 | a malformed h gives "`h` must be positive integer" |
| Abc042D.ParseErrorW | src/bin/abc042_d.rs:240-244 | a malformed w gives "`w` must be positive integer" |
| Abc042D.ParseErrorA | src/bin/abc042_d.rs:247-251 | a malformed a gives "`a` must be positive integer" |
| Abc042D.ParseErrorB | src/bin/abc042_d.rs:254-258 | a malformed b gives "`b` must be positive integer" |
| Abc043A.Parse | src/bin/abc043_a.rs:61-72 | success only with one line whose first word is an i32 |
| Abc043A.Solve | src/bin/abc043_a.rs:85-90 | `solve` has no error path; it requires n(n + 1) to be an i32. The value is characterised by `SolveIsSum` and `SolveNegative` |
| Abc043A.ClosedForm | src/bin/abc043_a.rs:86 | n(n + 1) is twice 1 + ... + n, so the division is exact |
| Abc043A.SolveIsSum | src/bin/abc043_a.rs:85-90 | for n >= 0 the answer is 1 + 2 + ... + n |
| Abc043A.SolveNegative | src/bin/abc043_a.rs:85-90 | for a negative n the answer is 1 + ... + (-n - 1) |
| Abc043A.ParseRender | src/bin/abc043_a.rs:61-72 | the canonical line of any i32 parses back to it |
| Abc043A.Example1 | src/bin/abc043_a.rs:98-103 | "3" answers "6" |
| Abc043A.Example2 | src/bin/abc043_a.rs:106-111 | "10" answers "55" |
| Abc043A.Example3 | src/bin/abc043_a.rs:114-119 | "1" answers "1" |
| Abc043A.Errors | src/bin/abc043_a.rs:136-154 | two lines, an empty line and a malformed n each give their message |
| Abc043B.Parse | src/bin/abc043_b.rs:60-67 | success exactly with one line, kept verbatim; otherwise "input must be 1 line" |
| Abc043B.Solve | src/bin/abc043_b.rs:81-95 | an error exactly when a character is not '0', '1' or 'B'; otherwise the editor's text after the keystrokes |
| Abc043B.TypedStep | src/bin/abc043_b.rs:84-92 | each keystroke changes the text as one key press, and the input stays valid exactly while every key is |
| Abc043B.TypedShape | src/bin/abc043_b.rs:81-95 | the text holds only '0' and '1' and is no longer than the keystrokes |
| Abc043B.TypeThenErase | src/bin/abc043_b.rs:85-90 | a digit followed by 'B' leaves the text as it was |
| Abc043B.LeadingBackspace | src/bin/abc043_b.rs:86-90 | 'B' on the empty editor is ignored |
| Abc043B.Example1 | src/bin/abc043_b.rs:103-108 | "01B0" types "00" |
| Abc043B.Example2 | src/bin/abc043_b.rs:111-116 | "0BB1" types "1" |
| Abc043B.InvalidExample | src/bin/abc043_b.rs:140-145 | "0BAB1" holds a character outside '0', '1' and 'B' |
| Abc043C.Parse | src/bin/abc043_c.rs:64-81 | success only with 2 lines, a usize `n`, and one i32 per word of line 1 |
| Abc043C.ParseRender | src/bin/abc043_c.rs:64-81 | the lines of any usize count, padded with spaces, and any i32 list parse back to them |
| Abc043C.CostNonNegative | src/bin/abc043_c.rs:96 | a cost is a sum of squares and never negative |
| Abc043C.BestBelowNeverIncreases | src/bin/abc043_c.rs:97-99 | the best cost so far never increases |
| Abc043C.BestCost | src/bin/abc043_c.rs:94-100 | the loop's result is the least cost over the targets -100..=100 and is the cost of one of them |
| Abc043C.Solve | src/bin/abc043_c.rs:93-104 | the answer is the cost of a target in -100..=100 that no other target in range beats |
| Abc043C.CostShift | src/bin/abc043_c.rs:96 | moving the target by e changes the cost by n e^2 + 2 e (n c - S) |
| Abc043C.RoundedMeanIsOptimal | src/bin/abc043_c.rs:93-104 | a target within half a step of the mean costs no more than any integer target |
| Abc043C.AnswerAtMean | src/bin/abc043_c.rs:93-104 | when the rounded mean is in range, the answer is the cost at the rounded mean |
| Abc043C.BestBelowIsLeast | src/bin/abc043_c.rs:95-100 | the running minimum is at most every cost tried and equals one of them, or the starting value |
| Abc043C.MinimumOf | src/bin/abc043_c.rs:94-100 | when some target in range is cheapest, the loop returns its cost |
| Abc043C.Example1 | src/bin/abc043_c.rs:112-117 | 4 8 answers 8 |
| Abc043C.Example2 | src/bin/abc043_c.rs:120-125 | 1 1 3 answers 3 |
| Abc043C.Example3 | src/bin/abc043_c.rs:128-133 | 4 2 5 answers 5 |
| Abc043C.Example4 | src/bin/abc043_c.rs:136-144 | four times -100 answers 0 |
| Abc043C.ParseExample | src/bin/abc043_c.rs:112-117 | "2", "4 8" parses to n = 2 and the list [4, 8] |
| Abc043C.ParseErrorLineCount | src/bin/abc043_c.rs:161-165 | one line gives "input must be 2 lines" |
| Abc043C.ParseErrorN | src/bin/abc043_c.rs:168-172 | "a" and "-2" give "`n` must be positive integer" |
| Abc043C.ParseErrorItem | src/bin/abc043_c.rs:175-179 | a malformed list item gives "list items must be integers" |
| PracticeBJudge.ReadTurn | src/bin/practice_b.rs:173-180 | the answer is the first character of the line, newline included; failure with "missing `ans`" exactly at end of input |
| PracticeBJudge.HonestIsResponsive | src/bin/practice_b.rs:173-180 | a judge answering from an order always sends an answer line |
| PracticeBJudge.RanksAtMost | src/bin/practice_b.rs:84-88 | rearranging a range keeps every letter in it ranked at most a bound |
| PracticeBJudge.RanksAtLeast | src/bin/practice_b.rs:84-88 | rearranging a range keeps every letter in it ranked at least a bound |
| PracticeBJudge.Judge.Ask | src/bin/practice_b.rs:43-47 | prints the query, which is appended to the log, and returns what `read_turn_input` reads |
| PracticeBJudge.SwapFacts | src/bin/practice_b.rs:49 | `swap` exchanges the two letters, keeps the others and the multiset of letters |
| PracticeBJudge.RearrangedMiddle | src/bin/practice_b.rs:86-90 | moving letters within a range keeps the range's letters |
| PracticeBBubble.BubblePass | src/bin/practice_b.rs:42-51 | one round: the buffer, the queries and the ending are those of `Pass` |
| PracticeBBubble.BubbleSort | src/bin/practice_b.rs:39-54 | the buffer, the queries and the ending are those of `Bubble` |
| PracticeBBubble.Pass | src/bin/practice_b.rs:42-51 | the inner loop on values: the buffer keeps its length and the loop never panics (the properties proved are the `Pass...` lemmas) |
| PracticeBBubble.Passes | src/bin/practice_b.rs:41-52 | k rounds of the outer loop, the first read error ending them: the length is kept and there is no panic |
| PracticeBBubble.Bubble | src/bin/practice_b.rs:39-54 | `bubble_sort` on values, one round per letter: the length is kept and there is no panic |
| PracticeBBubble.PassPermutation | src/bin/practice_b.rs:42-51 | a round only exchanges neighbours: the letters stay the same |
| PracticeBBubble.BubblePermutation | src/bin/practice_b.rs:39-54 | whatever the judge answers, the buffer ends as a rearrangement of its letters |
| PracticeBBubble.PassCount | src/bin/practice_b.rs:42-51 | with every answer present, a round asks once per adjacent pair |
| PracticeBBubble.PassesPermutation | src/bin/practice_b.rs:41-52 | any number of rounds keeps the letters |
| PracticeBBubble.PassesCount | src/bin/practice_b.rs:41-52 | with every answer present, k rounds succeed after k(n - 1) queries |
| PracticeBBubble.PassesFailure | src/bin/practice_b.rs:41-52 | rounds never panic and fail only on their last query |
| PracticeBBubble.BubbleQueryCount | src/bin/practice_b.rs:39-54 | with every answer present, the sort succeeds after exactly n(n - 1) queries |
| PracticeBBubble.PassFailure | src/bin/practice_b.rs:42-51 | a round never panics and fails only when its last query went unanswered |
| PracticeBBubble.BubbleFailure | src/bin/practice_b.rs:39-54 | the sort never panics; an error is "missing `ans`" for the last query |
| PracticeBBubble.PassStep | src/bin/practice_b.rs:47-50 | one compare-and-swap keeps the round's invariant |
| PracticeBBubble.PassSettles | src/bin/practice_b.rs:42-51 | with an honest judge, a round moves the settled suffix one place further |
| PracticeBBubble.PassesSort | src/bin/practice_b.rs:41-52 | with an honest judge, k rounds on a buffer settled from k leave it sorted |
| PracticeBBubble.BubbleSorts | src/bin/practice_b.rs:39-54 | with an honest judge, the sort succeeds and leaves the letters in the judge's order |
| PracticeBQuick.Queries | src/bin/practice_b.rs:76-84 | one query per letter that is not the pivot: as many as the letters when none is the pivot |
| PracticeBQuick.ScanTurn | src/bin/practice_b.rs:77-88 | one iteration: a query unless the letter is the pivot; the letter is swapped to `i` exactly when it goes first; failure only on a missing answer |
| PracticeBQuick.ScanTo | src/bin/practice_b.rs:76-89 | the loop so far: `i` stays within [lo, j], the buffer keeps its length, and no panic |
| PracticeBQuick.Partition | src/bin/practice_b.rs:73-92 | `qs_partition`: on success the returned place lies in [lo, hi] |
| PracticeBQuick.QuickRange | src/bin/practice_b.rs:63-71 | `qs_iter` on values, as written or repaired: the length is kept, and the repaired form never panics |
| PracticeBQuick.Quick | src/bin/practice_b.rs:57-61 | `quick_sort` as written: the length is kept, and an empty buffer always panics |
| PracticeBQuick.QuickFixed | src/bin/practice_b.rs:57-71 | `quick_sort` repaired: the length is kept and it never panics |
| PracticeBQuick.Exchange | src/bin/practice_b.rs:86 | `a.swap(i, j)` on the array |
| PracticeBQuick.PartitionStep | src/bin/practice_b.rs:77-88 | the loop body on the array does what `ScanTurn` says |
| PracticeBQuick.PartitionTurn | src/bin/practice_b.rs:76-89 | one more iteration moves the loop's state from position j to j + 1 |
| PracticeBQuick.QsPartition | src/bin/practice_b.rs:73-92 | the buffer, the queries, the ending and the returned place are those of `Partition` |
| PracticeBQuick.QsIter | src/bin/practice_b.rs:63-71 | the buffer, the queries and the ending are those of `QuickRange` as written |
| PracticeBQuick.QsHalves | src/bin/practice_b.rs:68-69 | the two recursive calls do what `Halves` says |
| PracticeBQuick.QuickSort | src/bin/practice_b.rs:57-61 | the buffer, the queries and the ending are those of `Quick` |
| PracticeBQuick.PartitionOf | src/bin/practice_b.rs:73-92 | the partition is the loop's result with the pivot swapped to `i`, or the loop's state at the failed read |
| PracticeBQuick.ScanStopped | src/bin/practice_b.rs:80 | after a failed read the loop has returned: nothing later changes |
| PracticeBQuick.TurnFrame | src/bin/practice_b.rs:85-88 | an iteration only exchanges the letters at `i` and `j` |
| PracticeBQuick.ScanFrame | src/bin/practice_b.rs:76-89 | the loop only rearranges [lo, j) |
| PracticeBQuick.ScanSplits | src/bin/practice_b.rs:76-89 | while no read fails, [lo, i) holds letters that go first and [i, j) the others |
| PracticeBQuick.ScanAsks | src/bin/practice_b.rs:76-84 | the loop asks, in order, about every letter that is not the pivot |
| PracticeBQuick.ScanAnswered | src/bin/practice_b.rs:76-89 | when every answer is present, no read of the loop fails |
| PracticeBQuick.ScanNoneLeft | src/bin/practice_b.rs:76-89 | when every letter is answered '>', nothing moves and `i` stays at `lo` |
| PracticeBQuick.PartitionFrame | src/bin/practice_b.rs:73-92 | the partition only rearranges [lo, hi] |
| PracticeBQuick.PartitionSplits | src/bin/practice_b.rs:73-92 | the pivot lands at p; letters before p go first and letters after p do not; one query per non-pivot letter; every answer present ⇒ success |
| PracticeBQuick.QuickRangeParts | src/bin/practice_b.rs:63-71 | `qs_iter` unfolds into the partition, then the panic at p = 0 as written, or the two halves |
| PracticeBQuick.QuickRangeFrame | src/bin/practice_b.rs:63-71 | `qs_iter(lo, hi)` only rearranges [lo, hi] |
| PracticeBQuick.QuickPermutation | src/bin/practice_b.rs:57-71 | whatever the judge answers, the buffer ends as a rearrangement of its letters |
| PracticeBQuick.GoesLeftHonest | src/bin/practice_b.rs:77-88 | with an honest judge a letter goes first exactly when it is the pivot or ranks below it |
| PracticeBQuick.QuickRangeSorts | src/bin/practice_b.rs:63-71 | with an honest judge the repaired `qs_iter` succeeds and sorts [lo, hi] |
| PracticeBQuick.HalvesSorts | src/bin/practice_b.rs:68-69 | with the pivot in place, the two repaired calls sort the range |
| PracticeBQuick.LeftSorted | src/bin/practice_b.rs:68 | the left call sorts [lo, p) and keeps it below the pivot |
| PracticeBQuick.RightSorted | src/bin/practice_b.rs:69 | the right call sorts (p, hi], leaving a sorted [lo, hi] |
| PracticeBQuick.QuickFixedSorts | src/bin/practice_b.rs:57-71 | with an honest judge the repaired sort succeeds and leaves a sorted permutation of its letters |
| PracticeBQuick.QuickUnderflow | src/bin/practice_b.rs:57-71 | as written: on two or more letters, the sort panics when the last letter ranks below all the others; on an empty buffer it always panics |
| PracticeBQuick.QuickUnderflowOnAB | src/bin/practice_b.rs:57-71 | as written: "AB" with a judge ranking B first panics |
| PracticeBMerge.MergeStep | src/bin/practice_b.rs:129-146 | one iteration: a query only while both runs have letters; the left letter, or else the right letter, is written and its cursor advances |
| PracticeBMerge.MergeTo | src/bin/practice_b.rs:128-147 | the loop so far: cursors within their runs and one letter written per step until a read fails |
| PracticeBMerge.Merge | src/bin/practice_b.rs:119-149 | a completed merge spends both runs and writes end - begin letters |
| PracticeBMerge.MergeInto | src/bin/practice_b.rs:119-149 | the destination keeps its length |
| PracticeBMerge.SplitMerge | src/bin/practice_b.rs:102-116 | `ms_top_down_split_merge` as written keeps the buffer's length and never panics |
| PracticeBMerge.Mergesort | src/bin/practice_b.rs:95-100 | `merge_sort` as written on values: the length is kept and it never panics |
| PracticeBMerge.MergesortFixed | src/bin/practice_b.rs:95-149 | the merge sort with buffers swapping roles: the length is kept and it never panics |
| PracticeBMerge.MsMerge | src/bin/practice_b.rs:119-149 | the destination, the queries and the ending are those of `MergeInto`, and the source is only read |
| PracticeBMerge.MergeTurn | src/bin/practice_b.rs:129-146 | the loop body on the arrays does what `MergeStep` says |
| PracticeBMerge.MergeNext | src/bin/practice_b.rs:128-147 | one more iteration moves the loop's state from k to k + 1 |
| PracticeBMerge.MsSplitMerge | src/bin/practice_b.rs:102-116 | the buffer, the queries and the ending are those of `SplitMerge`; `b` is only read |
| PracticeBMerge.MergeSort | src/bin/practice_b.rs:95-100 | the buffer, the queries and the ending are those of `Mergesort` |
| PracticeBMerge.MergeStopped | src/bin/practice_b.rs:137 | after a failed read the loop has returned: nothing later changes |
| PracticeBMerge.MergeToLetters | src/bin/practice_b.rs:128-147 | the letters written are exactly those the cursors have passed |
| PracticeBMerge.MergeLetters | src/bin/practice_b.rs:119-149 | a completed merge writes every letter of both runs once |
| PracticeBMerge.MergeToQueries | src/bin/practice_b.rs:128-139 | at most one query per letter written, and none once a run is spent |
| PracticeBMerge.MergeQueries | src/bin/practice_b.rs:119-149 | a merge of m letters prints at most m - 1 queries |
| PracticeBMerge.MergeToDone | src/bin/practice_b.rs:128-147 | with every answer present the merge completes |
| PracticeBMerge.StepOrdered | src/bin/practice_b.rs:129-146 | with an honest judge and sorted runs, each step keeps the output sorted and below both cursors |
| PracticeBMerge.MergeToOrdered | src/bin/practice_b.rs:128-147 | the loop keeps that invariant up to any position |
| PracticeBMerge.MergeSortedRuns | src/bin/practice_b.rs:119-149 | with an honest judge two sorted runs merge into a sorted range |
| PracticeBMerge.SplitMergeFrame | src/bin/practice_b.rs:102-116 | a call writes only a[begin..end] |
| PracticeBMerge.SplitMergeTop | src/bin/practice_b.rs:112-114 | a completed call leaves in a[begin..end] only the merge of the runs of `b`, whatever the recursive calls wrote |
| PracticeBMerge.SplitMergeDone | src/bin/practice_b.rs:102-116 | with every answer present the recursion completes |
| PracticeBMerge.MergesortAsWritten | src/bin/practice_b.rs:95-116 | as written: the result is the merge of the input's two unsorted halves, holding the input's letters; every answer present ⇒ success |
| PracticeBMerge.MergesortUnsorted | src/bin/practice_b.rs:95-116 | as written: three letters in reverse of the judge's order end as middle, last, first, which is not sorted |
| PracticeBMerge.MergesortUnsortedOnABC | src/bin/practice_b.rs:95-116 | as written: "ABC" against a judge ranking Z..A ends as "BCA" |
| PracticeBMerge.MergesortFixedSorts | src/bin/practice_b.rs:95-149 | the corrected sort succeeds with an honest judge and leaves a sorted permutation of its letters |
| PracticeBMerge.FixedJoin | src/bin/practice_b.rs:119-149 | merging two sorted halves gives a sorted permutation of the whole |
| PracticeBMain.ReadInit | src/bin/practice_b.rs:154-171 | `n` is a usize and `q` an i32; any error is one of the four messages |
| PracticeBMain.Letters | src/bin/practice_b.rs:23 | the first n capital letters, at most 26, in increasing order |
| PracticeBMain.SortWith | src/bin/practice_b.rs:24-28 | the chosen strategy keeps the buffer's length |
| PracticeBMain.Main | src/bin/practice_b.rs:21-36 | `main` on values: a bad first line returns its message before any query; a printed answer is "! " and one letter per letter sorted; only quick sort can panic |
| PracticeBMain.Run | src/bin/practice_b.rs:21-36 | the program ends and queries as `Main` says |
| PracticeBMain.MainSorts | src/bin/practice_b.rs:21-36 | with the configured bubble sort and an honest judge, the program prints "! " and the letters in the judge's order |
| PracticeBMain.MainQueryCount | src/bin/practice_b.rs:21-54 | with every answer present, the program prints its answer after n'(n' - 1) queries for n' letters |
| PracticeBMain.MainNeverPanics | src/bin/practice_b.rs:21-36 | with bubble sort the program never panics; any error is a read error of its own |
| PracticeBMain.MainQuickPanics | src/bin/practice_b.rs:15-36 | with quick sort selected, a judge ranking the letters in reverse alphabetical order makes the program panic, for n = 0 or n >= 2 |
| PracticeBMain.MainMergeUnsorted | src/bin/practice_b.rs:16-36 | with merge sort selected, three letters ranked C, B, A print "! BCA", which is not the judge's order |
| PracticeBMain.ReadInitRender | src/bin/practice_b.rs:154-171 | the canonical line of any usize N and i32 Q reads back to them, whatever words follow |
| PracticeBMain.ReadInitExample | src/bin/practice_b.rs:154-171 | "5 7" reads as N = 5, Q = 7 |
| PracticeBMain.ReadInitMissing | src/bin/practice_b.rs:160-167 | an empty line gives "missing `n`"; one word gives "missing `q`" |
| PracticeBMain.ReadInitNegative | src/bin/practice_b.rs:160-164 | a negative N gives "`n` must be integer" |
| PracticeBMain.ReadInitMalformedQ | src/bin/practice_b.rs:165-169 | a malformed Q gives "`q` must be integer" |

## Left out

- The batch programs' `main`, `read_stdin` and `read_file` are not modelled, nor their printing and timing. This is file and console I/O. Each model starts from the lines and ends at the answer line.
- practice_b's write and read failures are not modelled ("error writing to `stdout`", "error reading input from `stdin`"). This is I/O. A read that hits end of input is an empty line, and that gives "missing `ans`".
- practice_b's flush after the read in `qs_partition` is not modelled. It does not change what is printed or read.
- PracticeBJudge.Judge: the judge's answer line depends only on the pair asked, not on how many lines came before. A judge whose input ends after k answers, whatever the queries, is not modelled.
- PracticeBMain.Main: the query budget `q` is read but, as in the source, never used.
- Total query bounds for quick sort and merge sort are not proved. Only the per-merge bound (`MergeQueries`) and bubble sort's exact count are.
- Text.Trim: removes only ASCII whitespace. Rust's `str::trim` also removes other Unicode whitespace.
- Text.Tokens: characters are Unicode scalars, not UTF-8 bytes. Only ASCII whitespace separates words, as in `split_ascii_whitespace`.
- PracticeA.Solve: requires that neither `a + b` nor `(a + b) + c` overflows an i32. The source evaluates the sum in that order and panics on either overflow in a debug build.
- Abc043A.Solve: requires n(n + 1) to fit in an i32, for the same reason.
- Abc043C.Solve: requires every cost to fit in an i32. The sums and squares are i32 and panic on overflow in a debug build.
- Abc043C.BestCost: same requirement as `Abc043C.Solve`.
- Abc042C.Solve: requires an amount at most i32::MAX that avoids `d`, from a non-negative `n`. A negative `n` panics on `to_digit` of '-'. Counting past i32::MAX panics.
- Abc042C.Search: same requirement as `Abc042C.Solve`.
- Abc042D.Solve: requires a <= h, w >= 1, and b < w when a > 0. Otherwise `h - a`, `w - 1` or `grid[idx][b]` panics.
- Abc042D.PathCount: same requirement as `Abc042D.Solve`. When a == h the code's initial row of ones acts as a free row above the grid, so `Top` makes it row 0.
- Abc042D: the repository's fourth sample (h = w = 100000, a = 44444, b = 55555) is not proved. Its value needs about 10^10 additions.
- Abc042B.Parse: compares the line count with n + 1 in unbounded integers. At n = usize::MAX the source panics in a debug build.
- PracticeBMerge.MergesortFixed: the corrected sort leaves the buffer unchanged when a read fails. The source does not say what a failed intended sort leaves.

## Findings

| source | as written | input that shows it | evidently intended | confidence | as-written member | corrected member |
|---|---|---|---|---|---|---|
| src/bin/practice_b.rs:57-71 | `a.len() - 1` and `qs_iter(a, lo, p - 1)` are usize subtractions. They go below zero on an empty buffer, and whenever the partition of a range starting at 0 returns 0. | N = 2, letters "AB", a judge that ranks B before A. The pivot B goes to place 0, and `p - 1` underflows. | Skip an empty buffer and an empty left part; the range is then sorted. | not executed; high (the source marks quick sort "not working") | PracticeBQuick.QuickUnderflow, PracticeBQuick.QuickUnderflowOnAB, PracticeBMain.MainQuickPanics | PracticeBQuick.QuickFixedSorts |
| src/bin/practice_b.rs:95-116 | `ms_top_down_split_merge(a, .., b)` passes `a` and `b` in the same roles at every depth. `b` is never written, so the last merge combines the unsorted halves of the original copy. | N = 3, letters "ABC", a judge ranking C before B before A. The program prints "! BCA". | Sort both halves, then merge the sorted halves (buffers swapping roles by depth). | not executed; high (the source marks merge sort "not working") | PracticeBMerge.MergesortAsWritten, PracticeBMerge.MergesortUnsortedOnABC, PracticeBMain.MainMergeUnsorted | PracticeBMerge.MergesortFixedSorts |
