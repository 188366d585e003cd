# Worksheet problem engine, modelled in Dafny

This project models the problem-generation engine of `maths_worksheet_generator.py`. That engine builds a worksheet of 90 arithmetic problems: 18 rows of 5.

The model covers these parts:

- **The four base generators** (`Generators`): addition, subtraction, multiplication and division.
  - Subtraction swaps its operands under `no_negative`.
  - Division builds its dividend as quotient × divisor.
- **The parenthesised-expression generator** (`Generators`): `(a op1 b) op2 c` or `a op2 (b op1 c)`.
  - It rejects an attempt and starts over on any of these:
    - a division by zero or an inexact division, inside or outside the bracket;
    - in the bracket-right form only, an outer `-` that would go negative under `no_negative`.
- **The fill-in-the-blank generator** (`Generators`): a solved equation with one operand shown as `__`.
- **`generate_problems`** (`Worksheet`): which generator each mode calls, how many times and in what order, then Python's Fisher–Yates `random.shuffle`.
  - Mixed mode makes 22 calls of each base generator and pads with 2 additions.
  - An unknown mode makes no calls.
- **The plain-text preview grid** (`Layout`): each problem left-aligned in a 16-character column, 5 per row.
- **The header sanitiser** (`Layout`), used for the default file name. It keeps alphanumerics, space, `-` and `_`, then strips whitespace.

Problems are values (`Problems.Problem`). Each pairs a small displayed expression with the integer answer. `Problems.Text` renders the exact strings the generators format, such as `"12 ÷ 4 = "`, `"(3 + 4) x 2 = "` and `"__ - 3 = 6"`. `Problems.Eval` gives the displayed expression an independent arithmetic meaning, and the soundness lemmas are stated against it.

Randomness is an input:

- Every generator attempt reads one `Generators.Draw` record from a finite stream. A base or fill-in call makes exactly one attempt; a parenthesised call makes one attempt per retry.
- The shuffle reads its swap positions from a separate sequence.
- The parenthesised generator retries on successive draws. Where the source recurses without bound, the model stops when the stream runs out, and that outcome is the `Exhausted` fault.

The loops of `generate_problems`, the retry loop, the shuffle and the preview rows are methods. Each is proved equal to a function that states its result: `Run`/`RunTo`, `FirstAccepted`, `Shuffled` and `Row`. The promised properties are then proved about those functions.

The `no_negative` option is labelled "Avoid negative results (for subtraction)" (`maths_worksheet_generator.py:75`). The subtraction and fill-in generators honour it. The parenthesised generator guards an outer `-` only in the bracket-right form (line 1050). Two subtractions stay unguarded:

- the bracket-left form, `(a op1 b) - c`, at lines 1021–1023;
- the subtraction inside the bracket of the bracket-right form, at line 1037.

`Generators.ParensLeftMinusUnguarded` and `Generators.ParensInnerMinusUnguarded` exhibit one accepted problem for each case.

## Model

The functions that compute the generators' and the assembler's results (`Generators.Addition`, `Subtraction`, `Multiplication`, `Division`, `BaseProblem`, `ParensAttempt`, `FillBlank`, `Hide`, `FirstAccepted`, `Worksheet.Plan`, `Step`, `RunTo`, `Generated`, `Shuffled`, `Layout.Texts`, `Row`, `Cells`) carry no contract of their own, or, for `Layout.Texts`, one that only restates its definition. Each is specified by the lemma or method in the row below that cites the same source lines.

| member | source | states |
|---|---|---|
| Problems.Apply | maths_worksheet_generator.py:1012-1016 | A division has a value exactly when the divisor is non-zero and divides evenly; addition and subtraction are undone by the other operand |
| Problems.ApplyDivExact | maths_worksheet_generator.py:1028-1031 | An accepted exact division, multiplied back by the divisor, gives the dividend |
| Problems.IntToStringRoundTrip | maths_worksheet_generator.py:950 | The decimal text printed for any integer, negative ones included, reads back as that integer |
| Problems.Text | maths_worksheet_generator.py:1062-1063 | A problem's text is never empty, so the empty-text retry never fires |
| Generators.OrderedPair | maths_worksheet_generator.py:957-958 | The subtraction operands are the two draws in some order, the larger first under no_negative, and are swapped exactly when no_negative holds and the first is smaller |
| Generators.AdditionSound | maths_worksheet_generator.py:946-950 | "a + b = " is a true addition question showing a and b in draw order, answer a + b |
| Generators.SubtractionSound | maths_worksheet_generator.py:952-960 | The subtraction question is true, shows both draws, and under no_negative its answer is not negative |
| Generators.MultiplicationSound | maths_worksheet_generator.py:962-966 | "a x b = " is a true multiplication question showing a and b, answer a * b |
| Generators.DivisionSound | maths_worksheet_generator.py:968-974 | The division question shows quotient * divisor and divisor, its answer is the quotient, it is never false, and it is true exactly when the divisor is non-zero |
| Generators.ExactQuotient | maths_worksheet_generator.py:972-974 | A dividend built as quotient * divisor leaves no remainder and divides back to the quotient |
| Generators.BaseProblemSound | maths_worksheet_generator.py:946-974 | Every base generator asks a question about its own operator that is never false; a no_negative subtraction has no negative answer |
| Generators.RightAnswerApply | maths_worksheet_generator.py:1046-1052 | The bracket-right outer answer is the operator's meaning, except that an outer '-' whose result would be negative is rejected under no_negative |
| Generators.ParensLeftMeaning | maths_worksheet_generator.py:1004-1031 | A bracket-left attempt is accepted exactly when its printed expression has a value, and the answer is that value |
| Generators.ParensRightMeaning | maths_worksheet_generator.py:1032-1060 | A bracket-right attempt is accepted exactly when its printed expression has a value that the no_negative guard lets through, and the answer is that value |
| Generators.ParensAttemptMeaning | maths_worksheet_generator.py:976-1065 | One attempt is accepted exactly when the printed expression evaluates (every division exact and by a non-zero divisor) and the guard does not reject it |
| Generators.ParensAccepted | maths_worksheet_generator.py:1062-1065 | An accepted attempt is a true question whose outer operator is op2; a bracket-right outer '-' under no_negative is not negative |
| Generators.ParensLeftMinusUnguarded | maths_worksheet_generator.py:1021-1023 | Under no_negative, "(1 + 1) - 5 = " is accepted with answer -3 |
| Generators.ParensInnerMinusUnguarded | maths_worksheet_generator.py:1036-1037 | Under no_negative, "9 + (1 - 5) = " is accepted although its bracket is -4 |
| Generators.AttemptsAt | maths_worksheet_generator.py:976-1065 | The attempt outcome recorded for draw i is that of one attempt on draw i |
| Generators.FirstAcceptedIsFirst | maths_worksheet_generator.py:1013-1063 | The retry returns the first accepted attempt from position k on, every attempt before it rejected; None only when every remaining attempt is rejected |
| Generators.GenerateParentheses | maths_worksheet_generator.py:976-1065 | The retry loop returns the first accepted attempt on the draws from k on and the position after it |
| Generators.HideSound | maths_worksheet_generator.py:1075-1081 | Hiding an operand leaves exactly one blank and the result visible; the answer is the hidden operand, and filling it in gives back "a op b" |
| Generators.FillBlankSound | maths_worksheet_generator.py:1067-1122 | A fill-in equation has one blank, is about the drawn operator, is never false, is true unless it divides by a zero divisor, and under no_negative a '-' equation shows no negative result |
| Generators.FillBlankSolves | maths_worksheet_generator.py:1067-1122 | Filling in the answer gives the base generator's question for the same draws, with the visible result as its answer; the answer is the operand at the blank's position |
| Worksheet.PlanSize | maths_worksheet_generator.py:1134-1171 | Every known mode makes 90 generator calls; any other mode makes none |
| Worksheet.PlanWithoutParens | maths_worksheet_generator.py:1154-1156 | Only parens mode calls the parenthesised generator |
| Worksheet.AttemptsSound | maths_worksheet_generator.py:1154-1156 | Every accepted parenthesised attempt on the draws is a true question |
| Worksheet.StepUses | maths_worksheet_generator.py:1136-1171 | A call stays within the draws and uses at least one; a base or fill-in call uses exactly one and fails only when none is left; a parenthesised call succeeds exactly when some remaining attempt is accepted |
| Worksheet.AcceptedCountAll | maths_worksheet_generator.py:1013-1063 | When every attempt is accepted, the count of accepted attempts is the number of attempts |
| Worksheet.AllAccepted | maths_worksheet_generator.py:1013-1063 | When every attempt on the draws is accepted, the accepted count is the number of draws |
| Worksheet.FirstAcceptedCount | maths_worksheet_generator.py:1013-1063 | One parenthesised call consumes exactly one accepted attempt, or fails only when no accepted attempt is left |
| Worksheet.RunParensCompletes | maths_worksheet_generator.py:1154-1156 | A run of n parenthesised calls completes exactly when at least n attempts are accepted, and stops right after the n-th |
| Worksheet.ParensModeCompletes | maths_worksheet_generator.py:1154-1156 | Parens mode's 90 calls complete exactly when at least 90 attempts on the draws are accepted |
| Worksheet.StepProduces | maths_worksheet_generator.py:1136-1171 | Each call's problem is what its generator promises: a base question about its operator that is never false; a true parenthesised question; a fill-in equation with one blank that is never false. Under no_negative, a base '-' answer, a bracket-right outer '-' answer and a fill-in '-' result are never negative |
| Worksheet.RunLength | maths_worksheet_generator.py:1132-1171 | A completed run has one problem per call and stays within the draws |
| Worksheet.RunProduces | maths_worksheet_generator.py:1136-1171 | Every problem of a completed run is what the call at its position promises, no_negative guarantees included |
| Worksheet.RunCompletes | maths_worksheet_generator.py:1136-1171 | A run with no parenthesised calls completes whenever there is a draw per call, using exactly one per call |
| Worksheet.RanOutPersists | maths_worksheet_generator.py:1154-1156 | Once the draws are exhausted, later calls leave the run exhausted |
| Worksheet.RunBaseBlock | maths_worksheet_generator.py:1139-1152 | A block of calls to one base generator appends one problem per next draw, or runs out when fewer draws remain |
| Worksheet.ShuffledPermutes | maths_worksheet_generator.py:1173 | The shuffle is a permutation of the problem list |
| Worksheet.ShuffledKinds | maths_worksheet_generator.py:1173 | Shuffling problems moves their operators the same way |
| Worksheet.Shuffle | maths_worksheet_generator.py:1173 | The swap loop, from the last position down to 1, yields the Fisher–Yates shuffle of the list on the given swap positions |
| Worksheet.GeneratedSize | maths_worksheet_generator.py:1124-1175 | A worksheet has 90 problems for a known mode and none otherwise, is a permutation of the generated problems, always comes out outside parens mode when there is a draw per problem, comes out in parens mode exactly when at least 90 attempts are accepted (so whenever there are 90 draws and every attempt on them is accepted), and is empty for an unknown mode whatever the draws |
| Worksheet.GeneratedProduced | maths_worksheet_generator.py:1124-1175 | Every problem on a worksheet is what one of the mode's generator calls promises, no_negative guarantees included |
| Worksheet.GeneratedSound | maths_worksheet_generator.py:1124-1175 | No problem on a worksheet is false, and in parens mode every problem is true. Under no_negative, in every mode: no '-' question outside parens mode has a negative answer, no fill-in '-' equation shows a negative result, and no bracket-right outer '-' has a negative answer |
| Worksheet.MixedOrder | maths_worksheet_generator.py:1136-1152 | Before the shuffle, mixed mode lists 22 '+', 22 '-', 22 'x', 22 '÷', then 2 '+' |
| Worksheet.MixedComposition | maths_worksheet_generator.py:1136-1173 | A mixed worksheet holds 24 additions, 22 subtractions, 22 multiplications and 22 divisions |
| Worksheet.AppendBase | maths_worksheet_generator.py:1139-1149 | count calls of one base generator append one problem per next draw, in draw order, or run out |
| Worksheet.AppendBlock | maths_worksheet_generator.py:1139-1149 | A block of base calls at plan position lo continues the run exactly as the plan says |
| Worksheet.PadWithAdditions | maths_worksheet_generator.py:1151-1152 | The padding loop appends additions, one per draw, until the list holds the total |
| Worksheet.PadBlock | maths_worksheet_generator.py:1151-1152 | The padding calls finish the run exactly as the plan says |
| Worksheet.RunMixed | maths_worksheet_generator.py:1136-1152 | The mixed branch produces exactly the run of the mixed plan |
| Worksheet.RunParens | maths_worksheet_generator.py:1154-1156 | The parens branch produces exactly the run of 90 retried parenthesised calls |
| Worksheet.RunFillBlank | maths_worksheet_generator.py:1158-1160 | The fill_blank branch produces exactly the run of 90 fill-in calls |
| Worksheet.OperatorPlan | maths_worksheet_generator.py:1162-1171 | A single-operator mode makes 90 calls of its own generator |
| Worksheet.RunOther | maths_worksheet_generator.py:1162-1171 | The last branch produces the run of the mode's plan: 90 calls of the named generator, or nothing for an unknown mode |
| Worksheet.GenerateProblems | maths_worksheet_generator.py:1124-1175 | generate_problems returns the shuffled run of the mode's plan, or the exhaustion fault |
| Layout.PadRight | maths_worksheet_generator.py:1226 | Left alignment in a field: the text unchanged, then spaces up to the width; a longer text is not cut |
| Layout.Cell | maths_worksheet_generator.py:1224-1228 | A position's column is its problem text left-aligned in 16 characters, or 16 spaces past the end of the list |
| Layout.TextsFit | maths_worksheet_generator.py:1226 | When every problem text is at most 16 characters, every text the preview reads fits its column |
| Layout.CellsColumn | maths_worksheet_generator.py:1221-1228 | When every text fits, position i of a range occupies exactly the 16 characters from 16 * (i - lo) on |
| Layout.PreviewRows | maths_worksheet_generator.py:1220-1229 | The preview of a problem list has 18 rows, row r holding the columns of the problems' texts at positions 5r to 5r + 4 |
| Layout.GridRows | maths_worksheet_generator.py:1220-1229 | The outer loop builds 18 rows, row r holding the columns of positions 5r to 5r + 4 |
| Layout.RowText | maths_worksheet_generator.py:1221-1229 | The inner loop builds one row from its five columns |
| Layout.RowsInOrder | maths_worksheet_generator.py:1220-1229 | Read row by row, the first n rows show positions 0 to 5n - 1, once each and in order |
| Layout.GridIndex | maths_worksheet_generator.py:1223 | Grid position (row, col) with col < 5 is position row * 5 + col, and each position has exactly one grid position |
| Layout.PreviewPosition | maths_worksheet_generator.py:1220-1229 | When every text fits, problem idx appears in row idx / 5 at character 16 * (idx % 5), in a row 80 characters wide |
| Layout.PreviewShowsText | maths_worksheet_generator.py:1220-1229 | When every text fits, problem idx's text appears in row idx / 5 from character 16 * (idx % 5), followed only by spaces up to the next column |
| Layout.PreviewShowsProblem | maths_worksheet_generator.py:1220-1229 | In the preview rows of a worksheet whose problem texts are at most 16 characters, problem idx's own text starts at character 16 * (idx % 5) of row idx / 5, followed by spaces up to the next column |
| Layout.Keep | maths_worksheet_generator.py:1283 | The filter keeps only allowed characters, never lengthens the header, and every allowed character of the header appears in the result |
| Layout.KeepCounts | maths_worksheet_generator.py:1283 | Each allowed character occurs in the result exactly as often as in the header, and no other character occurs |
| Layout.KeepAppend | maths_worksheet_generator.py:1283 | Filtering works character by character: the filter of s + t is the filter of s followed by the filter of t, so kept characters stay in order |
| Layout.KeepAllowed | maths_worksheet_generator.py:1283 | A string of allowed characters passes the filter unchanged |
| Layout.StripLeft | maths_worksheet_generator.py:1283 | Removes exactly the leading whitespace: a suffix of the input, everything dropped is whitespace, and what remains does not start with whitespace |
| Layout.StripRight | maths_worksheet_generator.py:1283 | Removes exactly the trailing whitespace, symmetrically |
| Layout.Strip | maths_worksheet_generator.py:1283 | str.strip(): a slice of the input that neither starts nor ends with whitespace |
| Layout.StripDropsSpaces | maths_worksheet_generator.py:1283 | Everything str.strip() drops, before and after the slice it keeps, is whitespace |
| Layout.StripStripped | maths_worksheet_generator.py:1283 | A string without leading or trailing whitespace is its own strip |
| Layout.Sanitize | maths_worksheet_generator.py:1283 | The sanitised header is no longer than the header, holds only alphanumerics, space, '-' and '_', and neither starts nor ends with whitespace |
| Layout.SanitizeKeeps | maths_worksheet_generator.py:1283 | The sanitised header is the filtered header with only whitespace dropped from its two ends |
| Layout.SanitizeIdempotent | maths_worksheet_generator.py:1283 | Sanitising a sanitised header changes nothing |

## Left out

- The Tk user interface, PDF rendering, printing, the clipboard, the save dialog and file writing are not modelled. Neither is the file name's timestamp, which comes from the clock.
- The preview's header, instruction, separator and footer lines are not modelled. Only the grid of problem rows is.
- Seeding is left out: `random.seed` with an integer or a salted string hash. Each random value is an explicit input, so a seed adds nothing to a model that quantifies over all draws.
- The number ranges and the uniformity of the random choices are left out. A draw stands for whatever `randint`/`choice` returned, so every property holds for any draw, in range or not. The `min > max` configuration fault is therefore not modelled.
- Generators.GenerateParentheses: the source retries by unbounded recursion. The model retries along a finite stream of draws and reports `Exhausted` when the stream ends, so it does not model non-termination or stack overflow.
- Generators.ParensAttempt: the bracket's float true division `a / b`, with its check against `int(...)`, is modelled as exact integer divisibility. Float rounding for operands beyond 2^53 is not modelled.
- Worksheet.Shuffle: Python's in-place `random.shuffle` is modelled on a `seq` value, with the partner index for each position supplied as an input (`js[i] <= i`). Aliasing of the caller's list is not modelled.
- Layout.Sanitize: `str.isalnum` depends on the Unicode database, so it is a parameter. The whitespace set of `str.strip()` is written out.
- Layout.PreviewPosition: the column position is stated only when every problem text fits in 16 characters. A longer text pushes the later columns of its row to the right, as `"<16"` formatting does, and `Layout.PreviewRows` still states each row exactly.
