/**
 * The rule-based evaluator behind `ApiService.mockPythonExecution`: it never runs
 * the submitted Python. It picks the first rule of a fixed, ordered table whose
 * test on the source text holds and computes that rule's output from the input.
 *
 * `Evaluate` is the specification (one function per rule, selected by
 * `SelectRule`); `MockPythonExecution` is the step-by-step version with the
 * source's three loops, proved equal to it.
 */
module Evaluator {
  import opened Wrappers
  import opened JsStrings
  import opened JsNumbers

  /** `ExecutionResult` without the two measurements (elapsed time and memory). */
  datatype ExecutionResult = ExecutionResult(output: string, error: Option<string>, success: bool)

  /** What a rule produces before the final trim: printed text, or a thrown error. */
  datatype Outcome = Printed(text: string) | Threw(message: string)

  datatype ArithOp = Add | Sub | Mul | Div

  /**
   * The JavaScript runtime's `(parseFloat(a) op parseFloat(b)).toString()`:
   * floating-point arithmetic and formatting, supplied from outside the model.
   */
  type FloatArith = (ArithOp, string, string) -> string

  /** The rules, named after what they simulate. */
  datatype Rule =
    | HelloLiteral | HelloPrint
    | Calculator | EvenOdd | LetterGrade | SumToN | CountVowels | ReverseText
    | MaxOfList | Factorial | PrimeCheck | InputPlaceholder
    | PrintScrape

  const HelloWorld: string := "Hello, World!"
  const Placeholder: string := "Code executed successfully"
  /**
   * The message of the TypeError raised by `lines[1].split(' ')` when there is
   * no second line, in the wording of the V8 engine (other engines word it
   * differently).
   */
  const MissingLineMessage: string := "Cannot read properties of undefined (reading 'split')"

  /** The gate of the input rules: the code calls `input()` and the input string is truthy. */
  predicate InputGate(code: string, hasInput: bool)
  {
    Contains(code, "input()") && hasInput
  }

  /** The test each rule puts to the source text, taken on its own (not yet in order). */
  predicate Matches(rule: Rule, code: string, hasInput: bool)
  {
    match rule
    case HelloLiteral => Contains(code, "print(\"Hello, World!\")")
    case HelloPrint => Contains(code, "print(") && Contains(code, "Hello")
    case Calculator => InputGate(code, hasInput) && Contains(code, "float(input())") && Contains(code, "+")
    case EvenOdd => InputGate(code, hasInput) && Contains(code, "% 2")
    case LetterGrade => InputGate(code, hasInput) && (Contains(code, "score") || Contains(code, "grade"))
    case SumToN => InputGate(code, hasInput) && (Contains(code, "sum") || Contains(code, "range"))
    case CountVowels => InputGate(code, hasInput) && Contains(code, "vowel")
    case ReverseText => InputGate(code, hasInput) && (Contains(code, "reverse") || Contains(code, "[::-1]"))
    case MaxOfList => InputGate(code, hasInput) && (Contains(code, "max") || Contains(code, "maximum"))
    case Factorial => InputGate(code, hasInput) && Contains(code, "factorial")
    case PrimeCheck => InputGate(code, hasInput) && Contains(code, "prime")
    case InputPlaceholder => InputGate(code, hasInput)
    case PrintScrape => true
  }

  /**
   * The if/else-if chain of `mockPythonExecution`. The input enters only through
   * its truthiness: the rules look at keywords in the code, not at the input's shape.
   */
  function SelectRule(code: string, hasInput: bool): Rule
  {
    if Contains(code, "print(\"Hello, World!\")") then HelloLiteral
    else if Contains(code, "print(") && Contains(code, "Hello") then HelloPrint
    else if Contains(code, "input()") && hasInput then SelectInputRule(code)
    else PrintScrape
  }

  /** The inner chain, reached when the code reads input and the input is not empty. */
  function SelectInputRule(code: string): Rule
  {
    if Contains(code, "float(input())") && Contains(code, "+") then Calculator
    else if Contains(code, "% 2") then EvenOdd
    else if Contains(code, "score") || Contains(code, "grade") then LetterGrade
    else if Contains(code, "sum") || Contains(code, "range") then SumToN
    else if Contains(code, "vowel") then CountVowels
    else if Contains(code, "reverse") || Contains(code, "[::-1]") then ReverseText
    else if Contains(code, "max") || Contains(code, "maximum") then MaxOfList
    else if Contains(code, "factorial") then Factorial
    else if Contains(code, "prime") then PrimeCheck
    else InputPlaceholder
  }

  /** The rule table in priority order. */
  const RuleOrder: seq<Rule> :=
    [HelloLiteral, HelloPrint, Calculator, EvenOdd, LetterGrade, SumToN, CountVowels,
     ReverseText, MaxOfList, Factorial, PrimeCheck, InputPlaceholder, PrintScrape]

  /** The position of a rule in `RuleOrder`. */
  function Rank(rule: Rule): (k: nat)
    ensures k < |RuleOrder| && RuleOrder[k] == rule
  {
    match rule
    case HelloLiteral => 0
    case HelloPrint => 1
    case Calculator => 2
    case EvenOdd => 3
    case LetterGrade => 4
    case SumToN => 5
    case CountVowels => 6
    case ReverseText => 7
    case MaxOfList => 8
    case Factorial => 9
    case PrimeCheck => 10
    case InputPlaceholder => 11
    case PrintScrape => 12
  }

  /** The selected rule's test holds, and no rule earlier in the table has a test that holds. */
  lemma SelectRuleIsEarliestMatch(code: string, hasInput: bool, rule: Rule)
    ensures Matches(SelectRule(code, hasInput), code, hasInput)
    ensures Matches(rule, code, hasInput) ==> Rank(SelectRule(code, hasInput)) <= Rank(rule)
  {
  }

  /** Rule k of the table is selected exactly when its test holds and no earlier test does. */
  lemma SelectRuleFirstMatchWins(code: string, hasInput: bool, k: nat)
    requires k < |RuleOrder|
    ensures SelectRule(code, hasInput) == RuleOrder[k]
        <==> Matches(RuleOrder[k], code, hasInput) && forall j :: 0 <= j < k ==> !Matches(RuleOrder[j], code, hasInput)
  {
    var selected := SelectRule(code, hasInput);
    SelectRuleIsEarliestMatch(code, hasInput, RuleOrder[k]);
    assert Rank(RuleOrder[k]) == k by {
      RankOfIndex(k);
    }
    forall j | 0 <= j < k && Matches(RuleOrder[j], code, hasInput)
      ensures selected != RuleOrder[k]
    {
      SelectRuleIsEarliestMatch(code, hasInput, RuleOrder[j]);
      RankOfIndex(j);
    }
    if selected != RuleOrder[k] && Matches(RuleOrder[k], code, hasInput) {
      var j := Rank(selected);
      assert j != k;
      assert Matches(RuleOrder[j], code, hasInput);
    }
  }

  /** `Rank` inverts indexing into the table (the table has no repeats). */
  lemma RankOfIndex(k: nat)
    requires k < |RuleOrder|
    ensures Rank(RuleOrder[k]) == k
  {
  }

  /** The lines of the trimmed input; `split` always yields at least one. */
  function Lines(input: string): (lines: seq<string>)
    ensures |lines| >= 1
  {
    Split(Trim(input), '\n')
  }

  /** The calculator rule: the operator line selects the operation; `lines[2]` may be `undefined`. */
  function CalculatorOutput(lines: seq<string>, rt: FloatArith): string
    requires |lines| >= 1
  {
    var rhs := if |lines| > 2 then lines[2] else "undefined";
    if |lines| < 2 then "Invalid operation"
    else if lines[1] == "+" then rt(Add, lines[0], rhs)
    else if lines[1] == "-" then rt(Sub, lines[0], rhs)
    else if lines[1] == "*" then rt(Mul, lines[0], rhs)
    else if lines[1] == "/" then rt(Div, lines[0], rhs)
    else "Invalid operation"
  }

  /** The even/odd rule: `num % 2 === 0`, which is false for NaN. */
  function EvenOddOutput(line: string): string
  {
    match ParseInt(line)
    case Int(n) => if JsRem(n, 2) == 0 then "Even" else "Odd"
    case NaN => "Odd"
  }

  /** The grade ladder of the grade rule. */
  function GradeOf(score: int): string
  {
    if score >= 90 then "A"
    else if score >= 80 then "B"
    else if score >= 70 then "C"
    else if score >= 60 then "D"
    else "F"
  }

  /** The grade rule: every comparison with NaN is false, so NaN falls through to F. */
  function LetterGradeOutput(line: string): string
  {
    match ParseInt(line)
    case NaN => "F"
    case Int(score) => GradeOf(score)
  }

  /** The grade bands: A from 90, B from 80, C from 70, D from 60, F below; each score gets exactly one. */
  lemma GradeBands(score: int)
    ensures score >= 90 <==> GradeOf(score) == "A"
    ensures 80 <= score < 90 <==> GradeOf(score) == "B"
    ensures 70 <= score < 80 <==> GradeOf(score) == "C"
    ensures 60 <= score < 70 <==> GradeOf(score) == "D"
    ensures score < 60 <==> GradeOf(score) == "F"
  {
  }

  /** A higher score never gets a lower grade. */
  lemma GradeMonotone(lower: int, higher: int)
    requires lower <= higher
    ensures GradeRank(GradeOf(lower)) <= GradeRank(GradeOf(higher))
  {
  }

  /** The position of a grade from F (0) to A (4). */
  function GradeRank(grade: string): nat
  {
    if grade == "A" then 4 else if grade == "B" then 3 else if grade == "C" then 2 else if grade == "D" then 1 else 0
  }

  /** The sum rule: the closed form `n * (n + 1) / 2` (the product is always even). */
  function SumOutput(line: string): string
  {
    match ParseInt(line)
    case Int(n) => IntToString(ClosedFormSum(n))
    case NaN => "NaN"
  }

  /** The sum rule's formula `n * (n + 1) / 2`. */
  function ClosedFormSum(n: int): int
  {
    n * (n + 1) / 2
  }

  /** `1 + 2 + ... + n`, and 0 when n is not positive. */
  function RunningSum(n: int): int
  {
    if n <= 0 then 0 else RunningSum(n - 1) + n
  }

  /** The closed form used by the sum rule is the running sum for every n >= 0. */
  lemma {:induction false} ClosedFormIsRunningSum(n: nat)
    ensures ClosedFormSum(n) == RunningSum(n)
  {
    if n > 0 {
      ClosedFormIsRunningSum(n - 1);
      assert n * (n + 1) == (n - 1) * n + 2 * n;
    }
  }

  /** `c.toLowerCase()` as far as vowels are concerned (see `ToLower`). */
  function LowerChar(c: char): string
  {
    if 'A' <= c <= 'Z' then [((c as int) + 32) as char]
    else if c == '\U{0130}' then "i\U{0307}"
    else [c]
  }

  /**
   * `s.toLowerCase()` for ASCII letters and for U+0130, whose lower case is two
   * characters; other characters are kept, since no other lower-case form holds
   * one of a, e, i, o, u.
   */
  function ToLower(s: string): string
  {
    if s == [] then [] else LowerChar(s[0]) + ToLower(s[1..])
  }

  predicate IsVowel(c: char)
  {
    c == 'a' || c == 'e' || c == 'i' || c == 'o' || c == 'u'
  }

  /** The number of characters of `s` in "aeiou", counted from the end. */
  function VowelCount(s: string): nat
  {
    if s == [] then 0 else VowelCount(s[..|s| - 1]) + (if IsVowel(s[|s| - 1]) then 1 else 0)
  }

  lemma {:induction false} VowelCountAppend(a: string, b: string)
    ensures VowelCount(a + b) == VowelCount(a) + VowelCount(b)
    decreases |b|
  {
    if b == [] {
      assert a + b == a;
    } else {
      VowelCountAppend(a, b[..|b| - 1]);
      assert (a + b)[..|a + b| - 1] == a + b[..|b| - 1];
    }
  }

  /** A letter whose lower case contains a vowel: a, e, i, o, u in either case, or U+0130. */
  predicate IsVowelAnyCase(c: char)
  {
    IsVowel(c) || c == 'A' || c == 'E' || c == 'I' || c == 'O' || c == 'U' || c == '\U{0130}'
  }

  /** The case-insensitive vowel count, read straight off the original text. */
  function VowelsAnyCase(s: string): (k: nat)
    ensures k <= |s|
  {
    if s == [] then 0 else (if IsVowelAnyCase(s[0]) then 1 else 0) + VowelsAnyCase(s[1..])
  }

  /** Counting vowels after lower-casing is counting them in any case. */
  lemma {:induction false} LowerVowelsAreAnyCase(s: string)
    ensures VowelCount(ToLower(s)) == VowelsAnyCase(s)
  {
    if s != [] {
      LowerVowelsAreAnyCase(s[1..]);
      VowelCountAppend(LowerChar(s[0]), ToLower(s[1..]));
      var c := s[0];
      if c == '\U{0130}' {
        assert VowelCount("i\U{0307}") == 1 by {
          assert "i\U{0307}"[..1] == "i";
          assert "i"[..0] == [];
        }
      } else {
        assert LowerChar(c)[..0] == [];
      }
    }
  }

  /** The maximum rule: the space-separated numbers of the second line. */
  function Numbers(pieces: seq<string>): (xs: seq<IntOrNaN>)
    ensures |xs| == |pieces|
    ensures forall i :: 0 <= i < |pieces| ==> xs[i] == ToNumber(pieces[i])
  {
    seq(|pieces|, i requires 0 <= i < |pieces| => ToNumber(pieces[i]))
  }

  function MaxOutput(lines: seq<string>): Outcome
  {
    if |lines| < 2 then Threw(MissingLineMessage)
    else Printed(NumberToString(MathMax(Numbers(Split(lines[1], ' ')))))
  }

  /** `n!` as the source's loop computes it: the product 1 * 2 * ... * n, which is 1 for n <= 0. */
  function Fact(n: int): nat
  {
    if n <= 0 then 1 else n * Fact(n - 1)
  }

  /** The factorial of a parsed number: with NaN the loop `i <= n` never runs. */
  function FactorialOf(n: IntOrNaN): nat
  {
    match n
    case Int(v) => Fact(v)
    case NaN => 1
  }

  /** `n % i === 0` with JavaScript's remainder. */
  predicate DividesJs(n: int, i: int)
  {
    i != 0 && JsRem(n, i) == 0
  }

  /** The prime rule's test: n > 1 and no i with 2 <= i <= sqrt(n) divides n. */
  predicate IsPrimeTrial(n: IntOrNaN)
  {
    n.Int? && n.value > 1 && forall i :: 2 <= i <= n.value && i * i <= n.value ==> !DividesJs(n.value, i)
  }

  lemma SquareMonotone(a: int, b: int)
    requires 0 <= a <= b
    ensures a * a <= b * b
  {
    MulMonotone(a, a, b);
    MulMonotone(b, a, b);
  }

  /** `n % q` is the remainder of any division of n by q with a remainder in [0, q). */
  lemma RemainderUnique(n: int, q: int, m: int, r: int)
    requires q > 0 && 0 <= r < q && n == q * m + r
    ensures n % q == r
  {
    var m' := n / q;
    assert q * (m - m') == n % q - r;
    if m - m' >= 1 {
      MulMonotone(q, 1, m - m');
    } else if m - m' <= -1 {
      MulMonotone(q, m - m', -1);
    }
  }

  lemma MulMonotone(c: int, a: int, b: int)
    requires 0 <= c && a <= b
    ensures c * a <= c * b
  {
    assert c * b - c * a == c * (b - a);
  }

  /** A divisor above the square root has a cofactor below it. */
  lemma CofactorDivides(n: int, d: int) returns (q: int)
    requires 2 <= d < n && DividesJs(n, d) && d * d > n
    ensures 2 <= q <= n && q * q <= n && DividesJs(n, q)
  {
    q := n / d;
    assert n == d * q;
    if q <= 1 {
      MulMonotone(d, q, 1);
    }
    if q >= d {
      MulMonotone(d, d, q);
    }
    MulMonotone(q, q, d);
    RemainderUnique(n, q, d, 0);
  }

  /** Trial division up to the square root decides primality: no divisor strictly between 1 and n. */
  lemma PrimeTrialIsPrimality(n: int)
    ensures IsPrimeTrial(Int(n)) <==> n > 1 && forall d :: 2 <= d < n ==> !DividesJs(n, d)
  {
    if n > 1 {
      if IsPrimeTrial(Int(n)) {
        forall d | 2 <= d < n && d * d > n
          ensures !DividesJs(n, d)
        {
          if DividesJs(n, d) {
            var q := CofactorDivides(n, d);
          }
        }
      } else {
        var i :| 2 <= i <= n && i * i <= n && DividesJs(n, i);
        if i == n {
          MulMonotone(n, 2, n);
        }
      }
    }
  }

  function PrimeOutput(line: string): string
  {
    if IsPrimeTrial(ParseInt(line)) then "Prime" else "Not Prime"
  }

  /** The index of the first `)` of `s`, if it comes before any line terminator. */
  function CloseParen(s: string): (r: Option<nat>)
    ensures r.Some? ==> r.value < |s| && s[r.value] == ')'
    ensures r.Some? ==> forall i :: 0 <= i < r.value ==> s[i] != ')' && !IsLineTerminator(s[i])
    ensures r.None? ==> forall i :: 0 <= i < |s| && s[i] == ')' ==> exists j :: 0 <= j < i && IsLineTerminator(s[j])
  {
    if s == [] then None
    else if s[0] == ')' then Some(0)
    else if IsLineTerminator(s[0]) then None
    else match CloseParen(s[1..])
      case Some(j) => Some(j + 1)
      case None => None
  }

  /**
   * The capture groups of `code.match(/print\((.*?)\)/g)`: scanning left to right,
   * each `print(` followed on the same line by a `)` yields the text up to the
   * first such `)`, and the scan resumes after it.
   */
  function Captures(code: string): (caps: seq<string>)
    ensures forall k :: 0 <= k < |caps| ==> ')' !in caps[k]
    ensures forall k, i :: 0 <= k < |caps| && 0 <= i < |caps[k]| ==> !IsLineTerminator(caps[k][i])
    decreases |code|
  {
    if |code| < 6 then []
    else if code[..6] == "print(" then
      match CloseParen(code[6..])
      case Some(j) => [code[6..6 + j]] + Captures(code[6 + j + 1..])
      case None => Captures(code[1..])
    else Captures(code[1..])
  }

  /** `content.replace(/['"]/g, '')`. */
  function StripQuotes(s: string): (r: string)
    ensures |r| <= |s|
    ensures '\'' !in r && '"' !in r
  {
    if s == [] then []
    else if s[0] == '\'' || s[0] == '"' then StripQuotes(s[1..])
    else [s[0]] + StripQuotes(s[1..])
  }

  /** Text without quotes is left as it is. */
  lemma {:induction false} StripQuotesKeepsUnquoted(s: string)
    requires '\'' !in s && '"' !in s
    ensures StripQuotes(s) == s
  {
    if s != [] {
      StripQuotesKeepsUnquoted(s[1..]);
      assert [s[0]] + s[1..] == s;
    }
  }

  /** Removing quotes keeps every character that is not a quote, and only those. */
  lemma {:induction false} StripQuotesKeeps(s: string, c: char)
    ensures c in StripQuotes(s) <==> c in s && c != '\'' && c != '"'
  {
    if s != [] {
      StripQuotesKeeps(s[1..], c);
      assert c in s <==> c == s[0] || c in s[1..];
    }
  }

  /** Removing quotes works character by character: it distributes over concatenation. */
  lemma {:induction false} StripQuotesAppend(a: string, b: string)
    ensures StripQuotes(a + b) == StripQuotes(a) + StripQuotes(b)
  {
    if a == [] {
      assert a + b == b;
    } else {
      var c := a[0];
      StripQuotesAppend(a[1..], b);
      assert a == [c] + a[1..];
      assert a + b == [c] + (a[1..] + b);
      StripQuotesCons(c, a[1..]);
      StripQuotesCons(c, a[1..] + b);
    }
  }

  /** One character in front: it is dropped if it is a quote and kept otherwise. */
  lemma StripQuotesCons(c: char, s: string)
    ensures StripQuotes([c] + s) == (if c == '\'' || c == '"' then [] else [c]) + StripQuotes(s)
  {
    assert ([c] + s)[0] == c;
    assert ([c] + s)[1..] == s;
  }

  /** Code with no `print(` anywhere has nothing to capture. */
  lemma {:induction false} NoPrintNoCaptures(code: string)
    requires !Contains(code, "print(")
    ensures Captures(code) == []
    decreases |code|
  {
    if |code| >= 6 {
      assert !OccursAt(code, "print(", 0);
      ContainsInSuffix(code, "print(", 1);
      NoPrintNoCaptures(code[1..]);
    }
  }

  /** The first `)` after a stretch free of `)` and line terminators closes the call. */
  lemma {:induction false} CloseParenAfter(x: string, rest: string)
    requires ')' !in x && forall i :: 0 <= i < |x| ==> !IsLineTerminator(x[i])
    ensures CloseParen(x + ")" + rest) == Some(|x|)
  {
    if x != [] {
      CloseParenAfter(x[1..], rest);
      assert (x + ")" + rest)[1..] == x[1..] + ")" + rest;
    }
  }

  /** A leading `print(x)` captures `x`, and the scan goes on after its `)`. */
  lemma CapturesOfPrint(x: string, rest: string)
    requires ')' !in x && forall i :: 0 <= i < |x| ==> !IsLineTerminator(x[i])
    ensures Captures("print(" + x + ")" + rest) == [x] + Captures(rest)
  {
    var code := "print(" + x + ")" + rest;
    assert code[..6] == "print(";
    assert code[6..] == x + ")" + rest;
    CloseParenAfter(x, rest);
    assert code[6..6 + |x|] == x;
    assert code[6 + |x| + 1..] == rest;
  }

  /** The print scraper: the unquoted captures joined by newlines, or the placeholder. */
  function ScrapeOutput(code: string): string
  {
    var caps := Captures(code);
    if caps == [] then Placeholder
    else Join(seq(|caps|, k requires 0 <= k < |caps| => StripQuotes(caps[k])), '\n')
  }

  /** What each rule prints, or throws, given the code and the lines of the input. */
  function Run(rule: Rule, code: string, lines: seq<string>, rt: FloatArith): Outcome
    requires |lines| >= 1
  {
    match rule
    case HelloLiteral => Printed(HelloWorld)
    case HelloPrint => Printed(HelloWorld)
    case Calculator => Printed(CalculatorOutput(lines, rt))
    case EvenOdd => Printed(EvenOddOutput(lines[0]))
    case LetterGrade => Printed(LetterGradeOutput(lines[0]))
    case SumToN => Printed(SumOutput(lines[0]))
    case CountVowels => Printed(IntToString(VowelCount(ToLower(lines[0]))))
    case ReverseText => Printed(Reverse(lines[0]))
    case MaxOfList => MaxOutput(lines)
    case Factorial => Printed(IntToString(FactorialOf(ParseInt(lines[0]))))
    case PrimeCheck => Printed(PrimeOutput(lines[0]))
    case InputPlaceholder => Printed(Placeholder)
    case PrintScrape => Printed(ScrapeOutput(code))
  }

  /** The `try`/`catch` around the rules: printed text is trimmed, a thrown error becomes a failure. */
  function Finish(outcome: Outcome): (r: ExecutionResult)
    ensures r.success <==> outcome.Printed?
    ensures r.success ==> r.error == None && Trim(r.output) == r.output
    ensures outcome.Printed? ==> r.output == Trim(outcome.text)
    ensures !r.success ==> r.output == [] && r.error == Some(outcome.message)
  {
    match outcome
    case Printed(text) =>
      TrimIdempotent(text);
      ExecutionResult(Trim(text), None, true)
    case Threw(message) => ExecutionResult([], Some(message), false)
  }

  /** `mockPythonExecution(code, input)`. */
  function Evaluate(code: string, input: string, rt: FloatArith): ExecutionResult
  {
    Finish(Run(SelectRule(code, input != []), code, Lines(input), rt))
  }

  // ---------------------------------------------------------------------------
  // Properties of the evaluator

  lemma NumberStringUnpadded(x: IntOrNaN)
    ensures Trim(NumberToString(x)) == NumberToString(x)
  {
    if x.Int? {
      IntStringUnpadded(x.value);
    } else {
      TrimKeepsUnpadded("NaN");
    }
  }

  /** Every result is either a trimmed success or an empty failure carrying the error. */
  lemma EvaluateShape(code: string, input: string, rt: FloatArith)
    ensures var r := Evaluate(code, input, rt);
      (r.success ==> r.error == None && Trim(r.output) == r.output)
      && (!r.success ==> r.output == [] && r.error == Some(MissingLineMessage))
  {
    var r := Evaluate(code, input, rt);
    if r.success {
      TrimIdempotent(Run(SelectRule(code, input != []), code, Lines(input), rt).text);
    }
  }

  /** The only failing path: the maximum rule on an input without a second line. */
  lemma FailsOnlyWithoutSecondLine(code: string, input: string, rt: FloatArith)
    ensures !Evaluate(code, input, rt).success
        <==> SelectRule(code, input != []) == MaxOfList && |Lines(input)| < 2
  {
  }

  /** A greeting print wins over everything else, whatever the input. */
  lemma GreetingIgnoresInput(code: string, input: string, rt: FloatArith)
    requires Contains(code, "print(\"Hello, World!\")") || (Contains(code, "print(") && Contains(code, "Hello"))
    ensures Evaluate(code, input, rt) == ExecutionResult(HelloWorld, None, true)
  {
    var rule := SelectRule(code, input != []);
    assert rule == HelloLiteral || rule == HelloPrint;
    assert Run(rule, code, Lines(input), rt) == Printed(HelloWorld);
    WordUnpadded(HelloWorld);
  }

  /** The literal greeting print contains both words the second greeting rule looks for. */
  lemma LiteralGreetingMatchesLooseRule(code: string)
    requires Contains(code, "print(\"Hello, World!\")")
    ensures Contains(code, "print(") && Contains(code, "Hello")
  {
    var literal := "print(\"Hello, World!\")";
    assert literal[..6] == "print(";
    assert literal[7] == 'H' && literal[8] == 'e' && literal[9] == 'l' && literal[10] == 'l' && literal[11] == 'o';
    assert literal[7..12] == "Hello";
    ContainsPart(code, literal, "print(", 0);
    ContainsPart(code, literal, "Hello", 7);
  }

  /** Without `input()` in the code, or with an empty input, no input rule runs. */
  lemma InputRulesNeedGate(code: string, input: string)
    requires !Contains(code, "input()") || input == []
    ensures SelectRule(code, input != []) in {HelloLiteral, HelloPrint, PrintScrape}
  {
  }

  /** Keywords decide, not the input: code with both `range` and `prime` is graded as a sum. */
  lemma SumRuleShadowsPrimeRule(code: string, input: string)
    requires InputGate(code, input != [])
    requires !(Contains(code, "print(") && Contains(code, "Hello")) && !Contains(code, "% 2")
    requires !Contains(code, "score") && !Contains(code, "grade")
    requires !Contains(code, "float(input())")
    requires Contains(code, "range") && Contains(code, "prime")
    ensures SelectRule(code, input != []) == SumToN
  {
    if Contains(code, "print(\"Hello, World!\")") {
      LiteralGreetingMatchesLooseRule(code);
    }
  }

  /** The even/odd rule prints Even exactly for even first lines, negative ones included. */
  lemma EvenOddRule(code: string, input: string, rt: FloatArith, n: int)
    requires SelectRule(code, input != []) == EvenOdd
    requires ParseInt(Lines(input)[0]) == Int(n)
    ensures Evaluate(code, input, rt) == ExecutionResult(if n % 2 == 0 then "Even" else "Odd", None, true)
  {
    JsRemTwoIsParity(n);
    var word := if n % 2 == 0 then "Even" else "Odd";
    assert Run(EvenOdd, code, Lines(input), rt) == Printed(word);
    WordUnpadded(word);
  }

  /** A first line with no number prints Odd (NaN is never equal to 0). */
  lemma EvenOddRuleOnNaN(code: string, input: string, rt: FloatArith)
    requires SelectRule(code, input != []) == EvenOdd
    requires ParseInt(Lines(input)[0]) == NaN
    ensures Evaluate(code, input, rt) == ExecutionResult("Odd", None, true)
  {
    assert Run(EvenOdd, code, Lines(input), rt) == Printed("Odd");
    WordUnpadded("Odd");
  }

  /** The grade rule prints the grade of the first line's number, F when it has none. */
  lemma LetterGradeRule(code: string, input: string, rt: FloatArith)
    requires SelectRule(code, input != []) == LetterGrade
    ensures var x := ParseInt(Lines(input)[0]);
      Evaluate(code, input, rt) == ExecutionResult(if x.Int? then GradeOf(x.value) else "F", None, true)
  {
    var grade := LetterGradeOutput(Lines(input)[0]);
    assert Run(LetterGrade, code, Lines(input), rt) == Printed(grade);
    WordUnpadded(grade);
  }

  /** The fixed words the rules print carry no whitespace to trim. */
  lemma WordUnpadded(word: string)
    requires word in {"A", "B", "C", "D", "F", "Even", "Odd", "Prime", "Not Prime", HelloWorld, Placeholder}
    ensures Trim(word) == word
  {
    TrimKeepsUnpadded(word);
  }

  /** The sum rule prints the running sum 1 + ... + n for every n >= 0. */
  lemma SumRule(code: string, input: string, rt: FloatArith, n: nat)
    requires SelectRule(code, input != []) == SumToN
    requires ParseInt(Lines(input)[0]) == Int(n)
    ensures Evaluate(code, input, rt) == ExecutionResult(IntToString(RunningSum(n)), None, true)
  {
    var total := RunningSum(n);
    SumOutputIsRunningSum(Lines(input)[0], n);
    assert Run(SumToN, code, Lines(input), rt) == Printed(IntToString(total));
    IntStringUnpadded(total);
  }

  lemma SumOutputIsRunningSum(line: string, n: nat)
    requires ParseInt(line) == Int(n)
    ensures SumOutput(line) == IntToString(RunningSum(n))
  {
    ClosedFormIsRunningSum(n);
  }

  /** The vowel rule counts a, e, i, o, u in either case, at most one per character of the first line. */
  lemma CountVowelsRule(code: string, input: string, rt: FloatArith)
    requires SelectRule(code, input != []) == CountVowels
    ensures var k := VowelsAnyCase(Lines(input)[0]);
      k <= |Lines(input)[0]| && Evaluate(code, input, rt) == ExecutionResult(IntToString(k), None, true)
  {
    var k := VowelsAnyCase(Lines(input)[0]);
    LowerVowelsAreAnyCase(Lines(input)[0]);
    assert Run(CountVowels, code, Lines(input), rt) == Printed(IntToString(k));
    IntStringUnpadded(k);
  }

  /** The reverse rule prints the first line's characters in the opposite order, then trims. */
  lemma ReverseRule(code: string, input: string, rt: FloatArith)
    requires SelectRule(code, input != []) == ReverseText
    ensures var r := Evaluate(code, input, rt);
      r.success && r.output == Trim(Reverse(Lines(input)[0]))
  {
  }

  /**
   * The maximum rule prints the largest number of the second line (or NaN if one
   * of them is not a number); without a second line it fails with the TypeError.
   */
  lemma MaxOfListRule(code: string, input: string, rt: FloatArith)
    requires SelectRule(code, input != []) == MaxOfList
    ensures var lines := Lines(input);
      var r := Evaluate(code, input, rt);
      && (|lines| < 2 ==> r == ExecutionResult([], Some(MissingLineMessage), false))
      && (|lines| >= 2 ==> r.success && r.output == NumberToString(MathMax(Numbers(Split(lines[1], ' ')))))
  {
    var lines := Lines(input);
    if |lines| >= 2 {
      var m := MathMax(Numbers(Split(lines[1], ' ')));
      assert MaxOutput(lines) == Printed(NumberToString(m));
      RunMaxOfList(code, lines, rt);
      NumberStringUnpadded(m);
    } else {
      assert MaxOutput(lines) == Threw(MissingLineMessage);
      RunMaxOfList(code, lines, rt);
    }
  }

  lemma RunMaxOfList(code: string, lines: seq<string>, rt: FloatArith)
    requires |lines| >= 1
    ensures Run(MaxOfList, code, lines, rt) == MaxOutput(lines)
  {
  }

  /** The factorial rule prints 1 * 2 * ... * n, which is 1 for n <= 0 and for NaN. */
  lemma FactorialRule(code: string, input: string, rt: FloatArith)
    requires SelectRule(code, input != []) == Factorial
    ensures var x := ParseInt(Lines(input)[0]);
      Evaluate(code, input, rt) == ExecutionResult(IntToString(FactorialOf(x)), None, true)
      && (x.NaN? || x.value <= 0 ==> FactorialOf(x) == 1)
  {
    var f := FactorialOf(ParseInt(Lines(input)[0]));
    assert Run(Factorial, code, Lines(input), rt) == Printed(IntToString(f));
    IntStringUnpadded(f);
  }

  /** The prime rule prints Prime exactly when n > 1 has no divisor strictly between 1 and n. */
  lemma PrimeRule(code: string, input: string, rt: FloatArith, n: int)
    requires SelectRule(code, input != []) == PrimeCheck
    requires ParseInt(Lines(input)[0]) == Int(n)
    ensures Evaluate(code, input, rt).output == "Prime"
        <==> n > 1 && forall d :: 2 <= d < n ==> !DividesJs(n, d)
    ensures Evaluate(code, input, rt).output in {"Prime", "Not Prime"}
    ensures Evaluate(code, input, rt).success && Evaluate(code, input, rt).error == None
  {
    PrimeTrialIsPrimality(n);
    var word := PrimeOutput(Lines(input)[0]);
    assert Run(PrimeCheck, code, Lines(input), rt) == Printed(word);
    WordUnpadded(word);
  }

  /** The print scraper: with no `print(...)` on one line the placeholder is printed. */
  lemma PrintScrapeRule(code: string, input: string, rt: FloatArith)
    requires SelectRule(code, input != []) == PrintScrape
    ensures var r := Evaluate(code, input, rt);
      r.success && (Captures(code) == [] ==> r.output == Placeholder)
      && (Captures(code) != [] ==> r.output == Trim(ScrapeOutput(code)) && '"' !in r.output && '\'' !in r.output)
  {
    var caps := Captures(code);
    if caps == [] {
      WordUnpadded(Placeholder);
    } else {
      var stripped := seq(|caps|, k requires 0 <= k < |caps| => StripQuotes(caps[k]));
      JoinKeepsOut(stripped, '\n', '"');
      JoinKeepsOut(stripped, '\n', '\'');
    }
  }

  /** Code that reaches the scraper without any `print(` prints the placeholder. */
  lemma ScrapeWithoutPrint(code: string, input: string, rt: FloatArith)
    requires SelectRule(code, input != []) == PrintScrape
    requires !Contains(code, "print(")
    ensures Evaluate(code, input, rt) == ExecutionResult(Placeholder, None, true)
  {
    NoPrintNoCaptures(code);
    WordUnpadded(Placeholder);
  }

  /**
   * A program that is one `print` of a double-quoted string prints that
   * string, when it holds no quote, `)` or line break and no padding.
   */
  lemma PrintStringLiteral(code: string, input: string, rt: FloatArith, x: string)
    requires code == "print(\"" + x + "\")"
    requires SelectRule(code, input != []) == PrintScrape
    requires ')' !in x && '\'' !in x && '"' !in x
    requires forall i :: 0 <= i < |x| ==> !IsLineTerminator(x[i])
    requires x == [] || (!IsWhitespace(x[0]) && !IsWhitespace(x[|x| - 1]))
    ensures Evaluate(code, input, rt) == ExecutionResult(x, None, true)
  {
    var arg := "\"" + x + "\"";
    assert code == "print(" + arg + ")" + [];
    CapturesOfPrint(arg, []);
    assert Captures(code) == [arg];
    assert arg == "\"" + (x + "\"");
    StripQuotesAppend("\"", x + "\"");
    StripQuotesAppend(x, "\"");
    StripQuotesKeepsUnquoted(x);
    assert StripQuotes("\"") == [];
    assert StripQuotes(arg) == x;
    TrimKeepsUnpadded(x);
  }

  /** A character found in no piece (and not the separator) is not in the join. */
  lemma {:induction false} JoinKeepsOut(pieces: seq<string>, sep: char, c: char)
    requires c != sep
    requires forall k :: 0 <= k < |pieces| ==> c !in pieces[k]
    ensures c !in Join(pieces, sep)
  {
    if |pieces| > 1 {
      JoinKeepsOut(pieces[1..], sep, c);
    }
  }

  // ---------------------------------------------------------------------------
  // The step-by-step evaluator, with the loops of the source

  /** The vowel loop: `for (const char of text) if (vowels.includes(char)) count++`. */
  method CountVowelsLoop(text: string) returns (count: nat)
    ensures count == VowelCount(text)
  {
    count := 0;
    for i := 0 to |text|
      invariant count == VowelCount(text[..i])
    {
      assert text[..i + 1][..i] == text[..i];
      if IsVowel(text[i]) {
        count := count + 1;
      }
    }
    assert text[..|text|] == text;
  }

  /** `i <= n` in JavaScript: false whenever n is NaN. */
  predicate AtMost(i: int, n: IntOrNaN)
  {
    n.Int? && i <= n.value
  }

  /** The factorial loop: `for (let i = 1; i <= n; i++) factorial *= i`. */
  method FactorialLoop(n: IntOrNaN) returns (f: int)
    ensures f == FactorialOf(n)
  {
    f := 1;
    var i := 1;
    while AtMost(i, n)
      invariant 1 <= i
      invariant i == 1 || (n.Int? && i <= n.value + 1)
      invariant f == Fact(i - 1)
      decreases if n.Int? then n.value + 1 - i else 0
    {
      f := f * i;
      i := i + 1;
    }
  }

  /** The prime loop: trial division while `i <= Math.sqrt(n)`, leaving at the first divisor. */
  method PrimeLoop(n: IntOrNaN) returns (isPrime: bool)
    ensures isPrime == IsPrimeTrial(n)
  {
    isPrime := n.Int? && n.value > 1;
    if n.Int? && n.value > 1 {
      var v := n.value;
      var i := 2;
      while i * i <= v
        invariant 2 <= i
        invariant isPrime
        invariant forall j :: 2 <= j < i ==> !DividesJs(v, j)
        decreases v - i
      {
        assert i < v by {
          MulMonotone(i, 2, i);
        }
        if JsRem(v, i) == 0 {
          assert DividesJs(v, i) && i * i <= v;
          isPrime := false;
          break;
        }
        i := i + 1;
      }
      if isPrime {
        forall j | 2 <= j <= v && j * j <= v
          ensures !DividesJs(v, j)
        {
          if j >= i {
            SquareMonotone(i, j);
          }
        }
      }
    } else {
      isPrime := false;
    }
  }

  /**
   * The body of the rule chosen for `code`, computed step by step: the
   * vowel count, the factorial and the trial division run as loops.
   */
  method RunRule(rule: Rule, code: string, lines: seq<string>, rt: FloatArith) returns (outcome: Outcome)
    requires |lines| >= 1
    ensures outcome == Run(rule, code, lines, rt)
  {
    match rule
    case HelloLiteral =>
      outcome := Printed(HelloWorld);
    case HelloPrint =>
      outcome := Printed(HelloWorld);
    case Calculator =>
      outcome := Printed(CalculatorOutput(lines, rt));
    case EvenOdd =>
      outcome := Printed(EvenOddOutput(lines[0]));
    case LetterGrade =>
      outcome := Printed(LetterGradeOutput(lines[0]));
    case SumToN =>
      outcome := Printed(SumOutput(lines[0]));
    case CountVowels =>
      var count := CountVowelsLoop(ToLower(lines[0]));
      outcome := Printed(IntToString(count));
    case ReverseText =>
      outcome := Printed(Reverse(lines[0]));
    case MaxOfList =>
      if |lines| < 2 {
        return Threw(MissingLineMessage);
      }
      outcome := Printed(NumberToString(MathMax(Numbers(Split(lines[1], ' ')))));
    case Factorial =>
      var f := FactorialLoop(ParseInt(lines[0]));
      outcome := Printed(IntToString(f));
    case PrimeCheck =>
      var isPrime := PrimeLoop(ParseInt(lines[0]));
      outcome := Printed(if isPrime then "Prime" else "Not Prime");
    case InputPlaceholder =>
      outcome := Printed(Placeholder);
    case PrintScrape =>
      outcome := Printed(ScrapeOutput(code));
  }

  /** `mockPythonExecution(code, input)`: pick the first matching rule, run it, trim or report the error. */
  method MockPythonExecution(code: string, input: string, rt: FloatArith) returns (result: ExecutionResult)
    ensures result == Evaluate(code, input, rt)
  {
    var rule := SelectRule(code, input != []);
    var outcome := RunRule(rule, code, Lines(input), rt);
    result := Finish(outcome);
  }

}
