# Python Learning Platform: the simulated evaluator, the judging of submissions and the progress tracker

This project models the engine behind the Python Learning Platform's practice
pages. It is written in Dafny.

- **The evaluator.** It never runs Python. `mockPythonExecution` picks the first
  rule of a fixed, ordered table of substring tests on the submitted source.
  The table has two "Hello" rules, nine input-driven rules gated on `input()`
  and a non-empty input, a placeholder, and a `print(...)` scraper. It then
  computes that rule's output from the trimmed input's lines.
- **Judging.** `submitSolution` looks up the problem. It runs the evaluator
  on each graded case in declared order, stops at the first case that fails,
  and only on a full pass records the problem as solved.
- **The progress tracker.** The service object keeps a `Map` of completed
  tutorials, a `Set` of solved problems, the statistics derived from them and
  the storage slot they are saved to.
- **The problem catalogue.** The ten practice problems with their graded cases.

## Layout

- `wrappers.dfy`: `Option`.
- `js_strings.dfy` (module `JsStrings`): the JavaScript string operations the
  engine uses: `includes`, `trim` with JavaScript's whitespace set, `split` and
  `join` on one character, and character reversal.
- `js_numbers.dfy` (module `JsNumbers`): JavaScript numbers restricted to
  integers and NaN: `parseInt`, `Number`, `toString`, the truncating `%` and
  `Math.max`.
- `evaluator.dfy` (module `Evaluator`): the rule table.
  - `Evaluate` is the specification, with one function per rule.
  - `MockPythonExecution` is the step-by-step version. It keeps the source's
    vowel, factorial and prime loops and is proved equal to `Evaluate`.
- `catalogue.dfy` (module `Catalogue`): the problem list as a constant, and the
  tutorial ids.
- `grading.dfy` (module `Grading`): when a case passes and when a submission is
  accepted.
- `progress.dfy` (module `Progress`): the map and set as insertion-ordered
  sequences, the save/restore pair, and the statistics.
- `api_service.dfy` (module `Service`): the class `ApiService`, whose methods
  update its fields in place.
- `catalogue_proofs.dfy` (module `Solutions`): which rule solves which problem.
  For each problem the graded cases are shown to follow one pattern. Code that
  the evaluator routes to the matching rule is then shown to be accepted.

## Model

| member | source | states |
|---|---|---|
| JsStrings.Trim | src/services/api.ts:209 | `trim()` removes the leading and trailing JavaScript whitespace: the result neither starts nor ends with whitespace |
| JsStrings.TrimIdempotent | src/services/api.ts:299 | trimming an already trimmed output changes nothing |
| JsStrings.TrimKeepsUnpadded | src/services/api.ts:299 | text that neither starts nor ends with whitespace is left alone by `trim()` |
| JsStrings.Split | src/services/api.ts:209 | `split` on one character yields at least one piece, and no piece holds the separator |
| JsStrings.JoinSplit | src/services/api.ts:209 | joining the pieces of a split with the same separator gives back the text |
| JsStrings.SplitJoin | src/services/api.ts:255 | splitting a join of non-empty-list pieces that are free of the separator gives back the pieces |
| JsStrings.SplitWithoutSeparator | src/services/api.ts:209 | text without the separator splits into itself alone |
| JsStrings.SplitAtSeparator | src/services/api.ts:209 | a separator after a separator-free prefix cuts exactly that prefix off as the first piece |
| JsStrings.Reverse | src/services/api.ts:252 | `split('').reverse().join('')`: character i of the result is character n-1-i of the input |
| JsStrings.ReverseInvolutive | src/services/api.ts:252 | reversing twice restores the text |
| JsNumbers.NatToString | src/services/api.ts:240 | `toString` of a non-negative integer is a non-empty run of decimal digits whose value is the number |
| JsNumbers.NatToStringCanonical | src/services/api.ts:240 | the numeral has `toString`'s canonical form: one digit exactly below 10, and it starts with `0` only for 0, so there is no leading zero |
| JsNumbers.ParseIntOfIntString | src/services/api.ts:226 | `parseInt` reads back any integer's numeral, even when a non-digit follows |
| JsNumbers.ToNumberOfIntString | src/services/api.ts:255 | `Number` reads back any integer's numeral |
| JsNumbers.IntStringUnpadded | src/services/api.ts:240 | an integer's numeral has no whitespace to trim |
| JsNumbers.JsRem | src/services/api.ts:227 | `a % b` is `a` minus a whole multiple of `b`, smaller than `b` in magnitude, with the sign of the dividend (the quotient truncates toward zero) |
| JsNumbers.JsRemTwoIsParity | src/services/api.ts:227 | `n % 2 === 0` holds exactly for even n, negative n included |
| JsNumbers.MathMax | src/services/api.ts:256 | `Math.max(...xs)` is NaN iff some element is NaN; otherwise it is one of the elements and no element exceeds it |
| Evaluator.SelectRuleIsEarliestMatch | src/services/api.ts:203-282 | the selected rule's test holds, and no rule whose test holds comes earlier in the table |
| Evaluator.SelectRuleFirstMatchWins | src/services/api.ts:203-282 | rule k is selected iff its test holds and the tests of all earlier rules fail |
| Evaluator.LiteralGreetingMatchesLooseRule | src/services/api.ts:203-206 | code containing `print("Hello, World!")` also passes the second Hello test, so the two rules agree |
| Evaluator.GreetingIgnoresInput | src/services/api.ts:203-206 | code with `print("Hello, World!")`, or with `print(` and `Hello`, yields a successful `Hello, World!` whatever the input |
| Evaluator.InputRulesNeedGate | src/services/api.ts:207 | without `input()` in the code, or with an empty input, only a Hello rule or the scraper can run |
| Evaluator.SumRuleShadowsPrimeRule | src/services/api.ts:236-279 | gated code that contains both `range` and `prime` (and no earlier keyword) takes the sum rule |
| Evaluator.Lines | src/services/api.ts:209 | the lines of the trimmed input: always at least one |
| Evaluator.EvenOddRule | src/services/api.ts:224-227 | on an integer first line n the output is `Even` iff n is even, else `Odd` |
| Evaluator.EvenOddRuleOnNaN | src/services/api.ts:224-227 | a first line that does not parse gives `Odd`, because `NaN % 2 === 0` is false |
| Evaluator.GradeBands | src/services/api.ts:228-235 | the grade is A iff the score is at least 90, B iff in [80, 90), C iff in [70, 80), D iff in [60, 70), F iff below 60 |
| Evaluator.GradeMonotone | src/services/api.ts:228-235 | a higher score never gets a lower grade |
| Evaluator.LetterGradeRule | src/services/api.ts:228-235 | the grade rule prints the grade of the parsed score, and F when it does not parse |
| Evaluator.ClosedFormIsRunningSum | src/services/api.ts:239 | n(n+1)/2 equals 1 + 2 + ... + n for every n >= 0 |
| Evaluator.SumRule | src/services/api.ts:236-240 | for every n >= 0 the sum rule prints the running sum 1 + ... + n |
| Evaluator.SumOutputIsRunningSum | src/services/api.ts:238-240 | the closed-form output on a line that parses to n >= 0 is the running sum's numeral |
| Evaluator.VowelCountAppend | src/services/api.ts:246-248 | the vowel count of a concatenation is the sum of the parts' counts |
| Evaluator.LowerVowelsAreAnyCase | src/services/api.ts:243-248 | counting a, e, i, o, u after `toLowerCase` counts the vowels of either case |
| Evaluator.VowelsAnyCase | src/services/api.ts:243-248 | the vowel count never exceeds the line's length |
| Evaluator.CountVowelsRule | src/services/api.ts:241-249 | the vowel rule prints the number of vowels of either case on the first line, at most its length |
| Evaluator.ReverseRule | src/services/api.ts:250-252 | the reverse rule prints the first line reversed, then trimmed |
| Evaluator.MaxOfListRule | src/services/api.ts:253-313 | with a second line the rule prints `Math.max` of its space-separated numbers; without one the access throws and the result is a failure with an empty output and the TypeError's message |
| Evaluator.FactorialRule | src/services/api.ts:257-264 | the factorial rule prints 1 * 2 * ... * n, which is 1 for n <= 0 and for NaN |
| Evaluator.PrimeTrialIsPrimality | src/services/api.ts:267-278 | trial division by every i with 2 <= i and i * i <= n finds a divisor iff n has one strictly between 1 and n |
| Evaluator.PrimeRule | src/services/api.ts:265-279 | the prime rule prints `Prime` iff n > 1 and no d with 2 <= d < n divides n, and `Not Prime` otherwise |
| Evaluator.CloseParen | src/services/api.ts:285 | the lazy `(.*?)\)` stops at the first `)` when no line terminator comes before it; when it finds none, every `)` has a line terminator before it |
| Evaluator.Captures | src/services/api.ts:285-288 | each captured `print` argument holds no `)` and no line terminator |
| Evaluator.CloseParenAfter | src/services/api.ts:285 | an argument free of `)` and line terminators is closed by the `)` right after it |
| Evaluator.CapturesOfPrint | src/services/api.ts:285-288 | code that starts with `print(x)` captures exactly `x` first, then whatever the rest of the code captures |
| Evaluator.NoPrintNoCaptures | src/services/api.ts:285-286 | code without `print(` anywhere captures nothing |
| Evaluator.StripQuotes | src/services/api.ts:289 | `replace(/['"]/g, '')` leaves no quote and never lengthens the text |
| Evaluator.StripQuotesKeeps | src/services/api.ts:289 | a character survives exactly when it was in the text and is not a quote |
| Evaluator.StripQuotesCons | src/services/api.ts:289 | a leading quote is dropped and any other leading character is kept |
| Evaluator.StripQuotesAppend | src/services/api.ts:289 | removing quotes works piece by piece: it distributes over concatenation, so the kept characters stay in order |
| Evaluator.StripQuotesKeepsUnquoted | src/services/api.ts:289 | text without quotes is unchanged |
| Evaluator.PrintScrapeRule | src/services/api.ts:284-293 | the scraper succeeds; with no capture it prints the placeholder, otherwise the joined, unquoted captures, trimmed, with no `'` or `"` left |
| Evaluator.ScrapeWithoutPrint | src/services/api.ts:284-293 | code that reaches the scraper without any `print(` succeeds with the placeholder |
| Evaluator.PrintStringLiteral | src/services/api.ts:284-293 | a program that is one `print("x")`, x free of quotes, `)`, line breaks and padding, succeeds with exactly x |
| Evaluator.Finish | src/services/api.ts:296-313 | printed text succeeds with its trim as the output and no error; a thrown error fails with empty output and the error's message |
| Evaluator.EvaluateShape | src/services/api.ts:296-313 | every result is either a trimmed success without error, or a failure with empty output and the missing-line message |
| Evaluator.FailsOnlyWithoutSecondLine | src/services/api.ts:253-313 | the evaluator fails exactly when the maximum rule runs on an input with a single line |
| Evaluator.JoinKeepsOut | src/services/api.ts:290 | a character that is neither in the pieces nor the separator is not in their join |
| Evaluator.CountVowelsLoop | src/services/api.ts:243-248 | the `count++` loop over the lower-cased text counts its vowels |
| Evaluator.FactorialLoop | src/services/api.ts:259-263 | the `factorial *= i` loop computes the factorial, 1 when the loop does not run |
| Evaluator.PrimeLoop | src/services/api.ts:267-278 | the loop with `break` decides the trial-division test |
| Evaluator.RunRule | src/services/api.ts:207-282 | the step-by-step branch computes the same output, or the same thrown error, as the rule's specification |
| Evaluator.MockPythonExecution | src/services/api.ts:193-315 | `mockPythonExecution` returns exactly `Evaluate(code, input)` |
| Catalogue.FindProblemIn | src/services/api.ts:164-165 | `find` returns nothing iff no problem has the id, and otherwise a listed problem with that id |
| Catalogue.ProblemIds | src/data/problems.ts:3-386 | there are exactly ten problems, with ids `'1'` to `'10'` in order |
| Catalogue.ProblemIdsDistinct | src/data/problems.ts:3-386 | no two problems share an id |
| Catalogue.FindProblemById | src/data/problems.ts:3-386 | looking up a problem's own id finds that problem |
| Catalogue.CasesDeclared | src/data/problems.ts:3-386 | every problem declares at least one case, and no case sets `isHidden` |
| Catalogue.SamplesAreGraded | src/data/problems.ts:3-386 | every problem's sample input and output form one of its graded cases (problem 4's sample is its second case) |
| Catalogue.TutorialIdsDistinct | src/data/tutorials.ts:3-475 | there are four tutorials with distinct ids |
| Grading.FirstFailure | src/services/api.ts:323-329 | the loop stops at the first failing case: every earlier case passes, and the case it stops at fails |
| Grading.FirstFailureIsEnd | src/services/api.ts:321-329 | the loop reaches the end of the list iff every case passes |
| Grading.NoCasesAcceptsAll | src/services/api.ts:321-329 | an empty case list passes vacuously |
| Grading.UnknownIdRejected | src/services/api.ts:318-319 | an id that no problem has is never accepted |
| Grading.AcceptedOnProblem | src/services/api.ts:317-338 | a problem's own id is accepted iff all of its cases pass |
| Grading.OneFailureRejects | src/services/api.ts:323-329 | one failing case anywhere rejects the submission, and the loop stops at or before it |
| Progress.KeyIndex | src/services/api.ts:146 | the position of a key in the map's entries, or the end when it is absent |
| Progress.MapGet | src/services/api.ts:127 | `map.get(k)` is undefined iff no entry has key k, and otherwise the value of an entry for k |
| Progress.MapSet | src/services/api.ts:146 | `map.set(k, v)` overwrites k's entry in place, or appends one; all other entries keep their place and value |
| Progress.MapGetAt | src/services/api.ts:127 | in a map, `get` of an entry's key returns that entry's value |
| Progress.MapSetKeysDistinct | src/services/api.ts:146 | `set` keeps the keys distinct |
| Progress.MapSetGet | src/services/api.ts:146 | after `set(k, v)`, `get(k)` is v and every other key reads as before |
| Progress.MapSetIdempotent | src/services/api.ts:146 | marking a tutorial twice is marking it once |
| Progress.SetAdd | src/services/api.ts:332 | `set.add(x)` holds x and the old elements and nothing else; the size grows only when x is new |
| Progress.SetAddIdempotent | src/services/api.ts:332 | adding a solved problem twice is adding it once |
| Progress.FromEntries | src/services/api.ts:40 | `new Map(entries)` has distinct keys; each key reads as the value of its last pair (absent keys read as undefined), and the keys are ordered by their first pair |
| Progress.FromElements | src/services/api.ts:41 | `new Set(elements)` has the same elements, without repeats |
| Progress.FromEntriesOfMap | src/services/api.ts:40-52 | rebuilding a map from its own entries gives the same map |
| Progress.FromElementsOfSet | src/services/api.ts:41-53 | rebuilding a set from its own elements gives the same set |
| Progress.Decode | src/services/api.ts:38-42 | a restored map and set are a proper map and set; a missing field reads as empty |
| Progress.DecodeEncode | src/services/api.ts:35-59 | restoring what was saved gives back the same map and set, in the same order |
| Progress.TrueCount | src/services/api.ts:64 | the number of completed tutorials is at most the number of entries |
| Progress.TrueCountAfterMark | src/services/api.ts:143-147 | marking a tutorial raises the count by one unless it was already complete |
| Progress.Streak | src/services/api.ts:79-82 | the streak is the number of solved problems, capped at 7 |
| Progress.RoundedPercentage | src/services/api.ts:66-67 | the percentage is 100 * done / total rounded to the nearest integer, halves up |
| Progress.PercentageMonotone | src/services/api.ts:66-67 | more completed items never lower the percentage |
| Progress.PercentageAtMostHundred | src/services/api.ts:66-67 | the percentage is at most 100 while no more items are done than exist |
| Progress.TotalItemsCounted | src/services/api.ts:66 | the denominator is the four tutorials plus the ten problems |
| Progress.StatsOfNothing | src/services/api.ts:21-28 | empty collections give the fresh user's progress |
| Progress.StatsWithinCatalogue | src/services/api.ts:61-82 | when the stored ids are catalogue ids, the counts stay within the catalogue, the percentage is at most 100 and the streak at most 7 |
| Progress.MarkNeverLowers | src/services/api.ts:143-149 | marking a tutorial complete never lowers any statistic |
| Progress.SolveNeverLowers | src/services/api.ts:331-335 | recording a solved problem never lowers any statistic |
| Service.ApiService.constructor | src/services/api.ts:14-33 | the service starts with the fresh user's progress and restores whatever the storage slot holds |
| Service.ApiService.LoadProgress | src/services/api.ts:35-47 | an empty slot leaves the service unchanged; otherwise the map and set become the decoded ones and progress is recomputed |
| Service.ApiService.SaveProgress | src/services/api.ts:49-59 | the slot holds the encoding of the current map and set; nothing else changes |
| Service.ApiService.UpdateUserProgress | src/services/api.ts:61-77 | the progress record becomes the statistics of the current map and set |
| Service.ApiService.MarkTutorialComplete | src/services/api.ts:143-149 | any id is set to true in the map, the solved set is untouched, progress is recomputed and saved, no statistic drops, and the tutorial then reads as complete |
| Service.ApiService.GetTutorial | src/services/api.ts:131-141 | an unknown id gives nothing; a known one gives the tutorial with its completion flag |
| Service.ApiService.GetTutorials | src/services/api.ts:122-129 | every tutorial, in order, with its completion flag |
| Service.ApiService.GetProblem | src/services/api.ts:161-171 | an unknown id gives nothing; a known one gives that catalogue problem with its solved flag |
| Service.ApiService.GetProblems | src/services/api.ts:152-159 | every problem, in order, with its solved flag |
| Service.ApiService.ExecuteCode | src/services/api.ts:174-191 | the result is the evaluator's |
| Service.ApiService.RunCases | src/services/api.ts:321-329 | the `for` loop with `break` reports true iff every case passes, i.e. iff it reaches the end of the list |
| Service.ApiService.SubmitSolution | src/services/api.ts:317-338 | the verdict is acceptance on that problem; on success the id joins the solved set and progress is recomputed and saved; on failure nothing changes |
| Service.ApiService.RecordSolved | src/services/api.ts:331-335 | the id joins the solved set, the map is untouched, progress is recomputed and saved, and no statistic drops |
| Solutions.NumeralInput | src/services/api.ts:209-226 | a numeral typed as the whole input is one line that parses back to its number |
| Solutions.TextInput | src/services/api.ts:209 | an unpadded single line typed as the whole input is the input's only line |
| Solutions.GreetingPasses | src/data/problems.ts:14-22 | greeting code passes every case that expects the greeting |
| Solutions.GreetingSolvesProblem | src/data/problems.ts:4-23 | code that prints the greeting is accepted for problem 1 |
| Solutions.EvenOrOddProblemCases | src/data/problems.ts:84-107 | problem 3's cases are 7, 8, 0 and -3, each expecting its parity word |
| Solutions.EvenOddCase | src/services/api.ts:224-227 | the even/odd rule passes a case made of an integer and its parity word |
| Solutions.EvenOddSolvesProblem | src/data/problems.ts:70-108 | code routed to the even/odd rule is accepted for problem 3 |
| Solutions.GradeCalculatorProblemCases | src/data/problems.ts:126-153 | problem 4's cases are one score per band, A down to F, each expecting its grade |
| Solutions.LetterGradeCase | src/services/api.ts:228-235 | the grade rule passes a case made of a score and its grade |
| Solutions.LetterGradeSolvesProblem | src/data/problems.ts:109-154 | code routed to the grade rule is accepted for problem 4 |
| Solutions.SumOfNumbersProblemCases | src/data/problems.ts:167-190 | problem 5's cases are 5, 1, 10 and 100, each expecting N(N+1)/2 |
| Solutions.SumCase | src/services/api.ts:236-240 | the sum rule passes a case made of n >= 0 and the numeral of N(N+1)/2 |
| Solutions.SumSolvesProblem | src/data/problems.ts:155-191 | code routed to the sum rule is accepted for problem 5 |
| Solutions.VowelsAppend | src/services/api.ts:243-248 | the either-case vowel count of a concatenation is the sum of the parts' counts |
| Solutions.CountVowelsProblemCases | src/data/problems.ts:204-227 | problem 6's cases are lines expecting their vowel counts of either case (`AEIOU` gives 5, `xyz` gives 0) |
| Solutions.CountVowelsCase | src/services/api.ts:241-249 | the vowel rule passes a case made of a line of text and its vowel count |
| Solutions.CountVowelsSolvesProblem | src/data/problems.ts:192-228 | code routed to the vowel rule is accepted for problem 6 |
| Solutions.ReverseStringProblemCases | src/data/problems.ts:241-264 | problem 7's cases are lines expecting themselves backwards |
| Solutions.ReverseCase | src/services/api.ts:250-252 | the reverse rule passes a case made of a line of text and that line backwards |
| Solutions.ReverseSolvesProblem | src/data/problems.ts:229-265 | code routed to the reverse rule is accepted for problem 7 |
| Solutions.Numerals | src/data/problems.ts:279-305 | the numerals of a list, element by element |
| Solutions.Maximum | src/data/problems.ts:279-305 | the largest element of a list: one of its elements, and no element exceeds it |
| Solutions.ListLines | src/services/api.ts:209 | a maximum case's input splits into exactly the count line and the number line |
| Solutions.ListNumbers | src/services/api.ts:255 | the number line parses back to the list, element by element |
| Solutions.MathMaxOfInts | src/services/api.ts:256 | `Math.max` of integers is their maximum |
| Solutions.FindMaximumProblemCases | src/data/problems.ts:279-305 | problem 8's cases are four lists, an all-negative and an all-equal one among them, each with its count on line 1 and expecting its maximum |
| Solutions.MaxOfListCase | src/services/api.ts:253-256 | the maximum rule passes a case made of a count line, a number line and their maximum |
| Solutions.MaxOfListSolvesProblem | src/data/problems.ts:266-306 | code routed to the maximum rule is accepted for problem 8 |
| Solutions.FactorialCalculatorProblemCases | src/data/problems.ts:320-343 | problem 9's cases are 5, 0, 1 and 4, each expecting its factorial, 1 for 0 |
| Solutions.FactorialCase | src/services/api.ts:257-264 | the factorial rule passes a case made of n and the numeral of n! |
| Solutions.FactorialSolvesProblem | src/data/problems.ts:307-344 | code routed to the factorial rule is accepted for problem 9 |
| Solutions.SmallPrime | src/data/problems.ts:357-384 | below 36, a number greater than 1 with no divisor from 2 to 5 is prime |
| Solutions.PrimeCheckerProblemCases | src/data/problems.ts:357-384 | problem 10's cases are 17, 1, 2, 15 and 29, each expecting whether it is prime (1 is not, 2 is) |
| Solutions.PrimeCase | src/services/api.ts:265-279 | the prime rule passes a case made of n and whether n is prime |
| Solutions.PrimeSolvesProblem | src/data/problems.ts:345-385 | code routed to the prime rule is accepted for problem 10 |

## Left out

- The calculator rule (src/services/api.ts:211-223) uses `parseFloat`, floating-point arithmetic and JavaScript's number formatting.
  - These are a parameter `rt`, standing for the JavaScript runtime.
  - Only the choice among `+`, `-`, `*`, `/` and `Invalid operation` is modelled.
  - No claim is made that problem 2's cases pass.
- Numbers are integers or NaN. Floating-point rounding is not modelled:
  - values beyond 2^53 are exact in the model;
  - factorials from 171 up are exact instead of `Infinity`;
  - `toString` of values from 10^21 up prints digits instead of exponent notation.
- `Number` reads empty or all-whitespace text as 0 and an optionally signed run of decimal digits as its value. Fractions, exponents, `Infinity` and the prefixed literals (hexadecimal `0x`, binary `0b`, octal `0o`, so `Number("0b101")` is 5 in JavaScript) read as NaN in the model.
- JsStrings.Reverse reverses Unicode scalar values, while `split('')` in JavaScript splits UTF-16 code units: for a character outside the Basic Multilingual Plane the source yields its two surrogates swapped, and the model keeps the character whole. Strings are sequences of scalar values throughout this model.
- `toLowerCase` is modelled for ASCII letters and U+0130, the only character outside A-Z whose lower case contains an ASCII vowel. Other characters are kept, which does not change any vowel count.
- `executionTime` and `memoryUsed` are clock and random readings, so `ExecutionResult` leaves them out. So does `UserProgress.lastActivity`.
- The `try`/`catch` around `mockPythonExecution` in `executeCode` catches nothing. The only throwing path, the maximum rule without a second line, is caught inside the evaluator.
- `delay`, `async`/`await`, `console.error`, and the JSON layer of `localStorage` are not modelled.
  - Storage is a single slot field holding the encoded map entries and set elements.
  - A parse failure in `loadProgress` is not modelled.
- `login`, `register` and `getCurrentUser` (src/services/api.ts:85-119) are demo authentication and are not modelled. Only the fresh user's progress record is kept.
- The lesson text of the tutorials, and every page and component, are not part of this model. Only the four tutorial ids are.
- Service.ApiService.MarkTutorialComplete accepts any id, as the source does. The bound of 100 on the percentage is therefore stated in `Progress.StatsWithinCatalogue` under the condition that the stored ids are catalogue ids, not as an invariant of the class.
