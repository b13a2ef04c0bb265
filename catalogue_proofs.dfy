/**
 * Which of the evaluator's rules solves which practice problem. For each
 * problem the graded cases are first shown to follow one pattern (a fact
 * about the catalogue alone, one small lemma per case); then code that the
 * evaluator routes to the matching rule is shown to pass every case of that
 * pattern, and so to be accepted for the problem. The calculator problem is
 * not covered: its results depend on floating point.
 */
module Solutions {
  import opened Wrappers
  import opened JsStrings
  import opened JsNumbers
  import opened Evaluator
  import opened Catalogue
  import opened Grading

  /** A numeral typed as the whole input is one line that parses back to its number. */
  lemma NumeralInput(n: int)
    ensures IntToString(n) != []
    ensures Lines(IntToString(n)) == [IntToString(n)]
    ensures ParseInt(Lines(IntToString(n))[0]) == Int(n)
  {
    var s := IntToString(n);
    NumeralShape(n);
    IntStringUnpadded(n);
    SplitWithoutSeparator(s, '\n');
    ParseIntOfIntString(n, []);
    assert s + [] == s;
  }

  /** A numeral holds no space and no line break, and starts and ends with no whitespace. */
  lemma NumeralShape(n: int)
    ensures IntToString(n) != [] && ' ' !in IntToString(n) && '\n' !in IntToString(n)
    ensures !IsWhitespace(IntToString(n)[0]) && !IsWhitespace(IntToString(n)[|IntToString(n)| - 1])
  {
    var s := IntToString(n);
    forall i | 0 <= i < |s| ensures s[i] != ' ' && s[i] != '\n' && !IsWhitespace(s[i]) {
      if n < 0 && i == 0 {
        assert s[0] == '-';
      } else {
        assert IsDigit(s[i], 10);
      }
    }
  }

  /** One line of text with no whitespace at either end. */
  predicate IsTextLine(s: string)
  {
    s != [] && !IsWhitespace(s[0]) && !IsWhitespace(s[|s| - 1]) && '\n' !in s
  }

  /** Such a line typed as the whole input is the input's only line. */
  lemma TextInput(s: string)
    requires IsTextLine(s)
    ensures Lines(s) == [s]
  {
    TrimKeepsUnpadded(s);
    SplitWithoutSeparator(s, '\n');
  }

  /**
   * Cases whose inputs are the numerals of `ns`, in order, each expecting
   * `answer` of its number.
   */
  predicate WordCases(cases: seq<TestCase>, ns: seq<int>, answer: int -> string)
  {
    |cases| == |ns| && forall k :: 0 <= k < |cases| ==> cases[k] == Case(IntToString(ns[k]), answer(ns[k]))
  }

  /**
   * Cases whose inputs are the numerals of `ns`, in order, each expecting the
   * numeral of the matching entry of `totals`.
   */
  predicate NumeralCases(cases: seq<TestCase>, ns: seq<int>, totals: seq<int>)
  {
    |cases| == |ns| == |totals|
    && forall k :: 0 <= k < |cases| ==> cases[k] == Case(IntToString(ns[k]), IntToString(totals[k]))
  }

  // ----- Problem 1: Hello World -----

  /** Greeting code passes every case that expects the greeting, whatever its input. */
  lemma GreetingPasses(code: string, rt: FloatArith, cases: seq<TestCase>)
    requires Contains(code, "print(\"Hello, World!\")") || (Contains(code, "print(") && Contains(code, "Hello"))
    requires forall k :: 0 <= k < |cases| ==> cases[k].expectedOutput == HelloWorld
    ensures AllPass(CheckOf(RunnerFor(code, rt)), cases)
  {
    forall k | 0 <= k < |cases| ensures CasePasses(RunnerFor(code, rt), cases[k]) {
      GreetingIgnoresInput(code, cases[k].input, rt);
      WordUnpadded(HelloWorld);
    }
  }

  /** Code that prints the greeting is accepted for problem 1, whose one case has no input. */
  lemma GreetingSolvesProblem(code: string, rt: FloatArith)
    requires Contains(code, "print(\"Hello, World!\")") || (Contains(code, "print(") && Contains(code, "Hello"))
    ensures Accepted(Problems[0].id, RunnerFor(code, rt))
  {
    GreetingPasses(code, rt, HelloWorldProblem.testCases);
    AcceptedOnProblem(0, RunnerFor(code, rt));
  }

  // ----- Problem 3: Even or Odd -----

  function ParityWord(n: int): string
  {
    if n % 2 == 0 then "Even" else "Odd"
  }

  /** Code routed to the even/odd rule prints the parity word of every integer input. */
  lemma EvenOddCase(code: string, rt: FloatArith, n: int)
    requires SelectRule(code, true) == EvenOdd
    ensures CasePasses(RunnerFor(code, rt), Case(IntToString(n), ParityWord(n)))
  {
    NumeralInput(n);
    EvenOddRule(code, IntToString(n), rt, n);
    WordUnpadded(ParityWord(n));
  }

  lemma EvenOddPasses(code: string, rt: FloatArith, cases: seq<TestCase>, ns: seq<int>)
    requires SelectRule(code, true) == EvenOdd
    requires WordCases(cases, ns, ParityWord)
    ensures AllPass(CheckOf(RunnerFor(code, rt)), cases)
  {
    forall k | 0 <= k < |cases| ensures CasePasses(RunnerFor(code, rt), cases[k]) {
      EvenOddCase(code, rt, ns[k]);
    }
  }

  lemma EvenOrOddProblemCase0()
    ensures EvenOrOddProblem.testCases[0] == Case(IntToString(7), ParityWord(7))
  {
    Numeral7();
  }

  lemma EvenOrOddProblemCase1()
    ensures EvenOrOddProblem.testCases[1] == Case(IntToString(8), ParityWord(8))
  {
    Numeral8();
  }

  lemma EvenOrOddProblemCase2()
    ensures EvenOrOddProblem.testCases[2] == Case(IntToString(0), ParityWord(0))
  {
    Numeral0();
  }

  lemma EvenOrOddProblemCase3()
    ensures EvenOrOddProblem.testCases[3] == Case(IntToString(-3), ParityWord(-3))
  {
    NumeralMinus3();
  }

  /** The cases of problem 3 are 7, 8, 0 and -3, each expecting its parity word. */
  lemma EvenOrOddProblemCases() returns (ns: seq<int>)
    ensures WordCases(EvenOrOddProblem.testCases, ns, ParityWord)
  {
    var cases := EvenOrOddProblem.testCases;
    ns := [7, 8, 0, -3];
    forall k | 0 <= k < |cases| ensures cases[k] == Case(IntToString(ns[k]), ParityWord(ns[k])) {
      if k == 0 {
        EvenOrOddProblemCase0();
      } else if k == 1 {
        EvenOrOddProblemCase1();
      } else if k == 2 {
        EvenOrOddProblemCase2();
      } else {
        EvenOrOddProblemCase3();
      }
    }
  }

  /** Code routed to the rule is accepted for any problem whose cases follow its pattern. */
  lemma EvenOddAccepted(code: string, rt: FloatArith, i: nat, ns: seq<int>)
    requires SelectRule(code, true) == EvenOdd
    requires i < |Problems|
    requires WordCases(Problems[i].testCases, ns, ParityWord)
    ensures Accepted(Problems[i].id, RunnerFor(code, rt))
  {
    EvenOddPasses(code, rt, Problems[i].testCases, ns);
    AcceptedOnProblem(i, RunnerFor(code, rt));
  }

  /** Code routed to the even/odd rule is accepted for problem 3. */
  lemma EvenOddSolvesProblem(code: string, rt: FloatArith)
    requires SelectRule(code, true) == EvenOdd
    ensures Accepted(Problems[2].id, RunnerFor(code, rt))
  {
    var ns := EvenOrOddProblemCases();
    EvenOddAccepted(code, rt, 2, ns);
  }

  // ----- Problem 4: Grade Calculator -----

  /** Code routed to the letter-grade rule prints the grade of every integer score. */
  lemma LetterGradeCase(code: string, rt: FloatArith, n: int)
    requires SelectRule(code, true) == LetterGrade
    ensures CasePasses(RunnerFor(code, rt), Case(IntToString(n), GradeOf(n)))
  {
    NumeralInput(n);
    LetterGradeRule(code, IntToString(n), rt);
    WordUnpadded(GradeOf(n));
  }

  lemma LetterGradePasses(code: string, rt: FloatArith, cases: seq<TestCase>, ns: seq<int>)
    requires SelectRule(code, true) == LetterGrade
    requires WordCases(cases, ns, GradeOf)
    ensures AllPass(CheckOf(RunnerFor(code, rt)), cases)
  {
    forall k | 0 <= k < |cases| ensures CasePasses(RunnerFor(code, rt), cases[k]) {
      LetterGradeCase(code, rt, ns[k]);
    }
  }

  lemma GradeCalculatorProblemCase0()
    ensures GradeCalculatorProblem.testCases[0] == Case(IntToString(95), GradeOf(95))
  {
    Numeral95();
  }

  lemma GradeCalculatorProblemCase1()
    ensures GradeCalculatorProblem.testCases[1] == Case(IntToString(85), GradeOf(85))
  {
    Numeral85();
  }

  lemma GradeCalculatorProblemCase2()
    ensures GradeCalculatorProblem.testCases[2] == Case(IntToString(75), GradeOf(75))
  {
    Numeral75();
  }

  lemma GradeCalculatorProblemCase3()
    ensures GradeCalculatorProblem.testCases[3] == Case(IntToString(65), GradeOf(65))
  {
    Numeral65();
  }

  lemma GradeCalculatorProblemCase4()
    ensures GradeCalculatorProblem.testCases[4] == Case(IntToString(45), GradeOf(45))
  {
    Numeral45();
  }

  /** The cases of problem 4 are one score in each band, A down to F, each expecting its grade. */
  lemma GradeCalculatorProblemCases() returns (ns: seq<int>)
    ensures WordCases(GradeCalculatorProblem.testCases, ns, GradeOf)
  {
    var cases := GradeCalculatorProblem.testCases;
    ns := [95, 85, 75, 65, 45];
    forall k | 0 <= k < |cases| ensures cases[k] == Case(IntToString(ns[k]), GradeOf(ns[k])) {
      if k == 0 {
        GradeCalculatorProblemCase0();
      } else if k == 1 {
        GradeCalculatorProblemCase1();
      } else if k == 2 {
        GradeCalculatorProblemCase2();
      } else if k == 3 {
        GradeCalculatorProblemCase3();
      } else {
        GradeCalculatorProblemCase4();
      }
    }
  }

  /** Code routed to the rule is accepted for any problem whose cases follow its pattern. */
  lemma LetterGradeAccepted(code: string, rt: FloatArith, i: nat, ns: seq<int>)
    requires SelectRule(code, true) == LetterGrade
    requires i < |Problems|
    requires WordCases(Problems[i].testCases, ns, GradeOf)
    ensures Accepted(Problems[i].id, RunnerFor(code, rt))
  {
    LetterGradePasses(code, rt, Problems[i].testCases, ns);
    AcceptedOnProblem(i, RunnerFor(code, rt));
  }

  /** Code routed to the letter-grade rule is accepted for problem 4. */
  lemma LetterGradeSolvesProblem(code: string, rt: FloatArith)
    requires SelectRule(code, true) == LetterGrade
    ensures Accepted(Problems[3].id, RunnerFor(code, rt))
  {
    var ns := GradeCalculatorProblemCases();
    LetterGradeAccepted(code, rt, 3, ns);
  }

  // ----- Problem 5: Sum of Numbers -----

  /** Code routed to the sum rule passes a case expecting n * (n + 1) / 2, the closed form it computes, for every n >= 0. */
  lemma SumCase(code: string, rt: FloatArith, n: nat, total: int)
    requires SelectRule(code, true) == SumToN
    requires total == ClosedFormSum(n)
    ensures CasePasses(RunnerFor(code, rt), Case(IntToString(n), IntToString(total)))
  {
    NumeralInput(n);
    SumRule(code, IntToString(n), rt, n);
    ClosedFormIsRunningSum(n);
    IntStringUnpadded(total);
  }

  lemma SumPasses(code: string, rt: FloatArith, cases: seq<TestCase>, ns: seq<int>, totals: seq<int>)
    requires SelectRule(code, true) == SumToN
    requires NumeralCases(cases, ns, totals)
    requires forall k :: 0 <= k < |ns| ==> totals[k] == ClosedFormSum(ns[k]) && ns[k] >= 0
    ensures AllPass(CheckOf(RunnerFor(code, rt)), cases)
  {
    forall k | 0 <= k < |cases| ensures CasePasses(RunnerFor(code, rt), cases[k]) {
      SumCase(code, rt, ns[k], totals[k]);
    }
  }

  lemma SumOfNumbersProblemCase0()
    ensures SumOfNumbersProblem.testCases[0] == Case(IntToString(5), IntToString(15))
    ensures 15 == ClosedFormSum(5)
  {
    Numeral5();
    Numeral15();
  }

  lemma SumOfNumbersProblemCase1()
    ensures SumOfNumbersProblem.testCases[1] == Case(IntToString(1), IntToString(1))
    ensures 1 == ClosedFormSum(1)
  {
    Numeral1();
    Numeral1();
  }

  lemma SumOfNumbersProblemCase2()
    ensures SumOfNumbersProblem.testCases[2] == Case(IntToString(10), IntToString(55))
    ensures 55 == ClosedFormSum(10)
  {
    Numeral10();
    Numeral55();
  }

  lemma SumOfNumbersProblemCase3()
    ensures SumOfNumbersProblem.testCases[3] == Case(IntToString(100), IntToString(5050))
    ensures 5050 == ClosedFormSum(100)
  {
    Numeral100();
    Numeral5050();
  }

  /** The cases of problem 5 are 5, 1, 10 and 100, each expecting n * (n + 1) / 2. */
  lemma SumOfNumbersProblemCases() returns (ns: seq<int>, totals: seq<int>)
    ensures NumeralCases(SumOfNumbersProblem.testCases, ns, totals)
    ensures forall k :: 0 <= k < |ns| ==> totals[k] == ClosedFormSum(ns[k]) && ns[k] >= 0
  {
    var cases := SumOfNumbersProblem.testCases;
    ns, totals := [5, 1, 10, 100], [15, 1, 55, 5050];
    forall k | 0 <= k < |cases|
      ensures cases[k] == Case(IntToString(ns[k]), IntToString(totals[k])) && totals[k] == ClosedFormSum(ns[k])
    {
      if k == 0 {
        SumOfNumbersProblemCase0();
      } else if k == 1 {
        SumOfNumbersProblemCase1();
      } else if k == 2 {
        SumOfNumbersProblemCase2();
      } else {
        SumOfNumbersProblemCase3();
      }
    }
  }

  /** Code routed to the rule is accepted for any problem whose cases follow its pattern. */
  lemma SumAccepted(code: string, rt: FloatArith, i: nat, ns: seq<int>, totals: seq<int>)
    requires SelectRule(code, true) == SumToN
    requires i < |Problems|
    requires NumeralCases(Problems[i].testCases, ns, totals)
    requires forall k :: 0 <= k < |ns| ==> totals[k] == ClosedFormSum(ns[k]) && ns[k] >= 0
    ensures Accepted(Problems[i].id, RunnerFor(code, rt))
  {
    SumPasses(code, rt, Problems[i].testCases, ns, totals);
    AcceptedOnProblem(i, RunnerFor(code, rt));
  }

  /** Code routed to the sum rule is accepted for problem 5. */
  lemma SumSolvesProblem(code: string, rt: FloatArith)
    requires SelectRule(code, true) == SumToN
    ensures Accepted(Problems[4].id, RunnerFor(code, rt))
  {
    var ns, totals := SumOfNumbersProblemCases();
    SumAccepted(code, rt, 4, ns, totals);
  }

  // ----- Problem 9: Factorial Calculator -----

  /** Code routed to the factorial rule prints the factorial of every integer input. */
  lemma FactorialCase(code: string, rt: FloatArith, n: int, total: int)
    requires SelectRule(code, true) == Factorial
    requires total == Fact(n)
    ensures CasePasses(RunnerFor(code, rt), Case(IntToString(n), IntToString(total)))
  {
    NumeralInput(n);
    FactorialRule(code, IntToString(n), rt);
    IntStringUnpadded(total);
  }

  lemma FactorialPasses(code: string, rt: FloatArith, cases: seq<TestCase>, ns: seq<int>, totals: seq<int>)
    requires SelectRule(code, true) == Factorial
    requires NumeralCases(cases, ns, totals)
    requires forall k :: 0 <= k < |ns| ==> totals[k] == Fact(ns[k])
    ensures AllPass(CheckOf(RunnerFor(code, rt)), cases)
  {
    forall k | 0 <= k < |cases| ensures CasePasses(RunnerFor(code, rt), cases[k]) {
      FactorialCase(code, rt, ns[k], totals[k]);
    }
  }

  lemma FactorialCalculatorProblemCase0()
    ensures FactorialCalculatorProblem.testCases[0] == Case(IntToString(5), IntToString(120))
    ensures 120 == Fact(5)
  {
    Numeral5();
    Numeral120();
  }

  lemma FactorialCalculatorProblemCase1()
    ensures FactorialCalculatorProblem.testCases[1] == Case(IntToString(0), IntToString(1))
    ensures 1 == Fact(0)
  {
    Numeral0();
    Numeral1();
  }

  lemma FactorialCalculatorProblemCase2()
    ensures FactorialCalculatorProblem.testCases[2] == Case(IntToString(1), IntToString(1))
    ensures 1 == Fact(1)
  {
    Numeral1();
    Numeral1();
  }

  lemma FactorialCalculatorProblemCase3()
    ensures FactorialCalculatorProblem.testCases[3] == Case(IntToString(4), IntToString(24))
    ensures 24 == Fact(4)
  {
    Numeral4();
    Numeral24();
  }

  /** The cases of problem 9 are 5, 0, 1 and 4, each expecting its factorial (1 for 0). */
  lemma FactorialCalculatorProblemCases() returns (ns: seq<int>, totals: seq<int>)
    ensures NumeralCases(FactorialCalculatorProblem.testCases, ns, totals)
    ensures forall k :: 0 <= k < |ns| ==> totals[k] == Fact(ns[k])
  {
    var cases := FactorialCalculatorProblem.testCases;
    ns, totals := [5, 0, 1, 4], [120, 1, 1, 24];
    forall k | 0 <= k < |cases|
      ensures cases[k] == Case(IntToString(ns[k]), IntToString(totals[k])) && totals[k] == Fact(ns[k])
    {
      if k == 0 {
        FactorialCalculatorProblemCase0();
      } else if k == 1 {
        FactorialCalculatorProblemCase1();
      } else if k == 2 {
        FactorialCalculatorProblemCase2();
      } else {
        FactorialCalculatorProblemCase3();
      }
    }
  }

  /** Code routed to the rule is accepted for any problem whose cases follow its pattern. */
  lemma FactorialAccepted(code: string, rt: FloatArith, i: nat, ns: seq<int>, totals: seq<int>)
    requires SelectRule(code, true) == Factorial
    requires i < |Problems|
    requires NumeralCases(Problems[i].testCases, ns, totals)
    requires forall k :: 0 <= k < |ns| ==> totals[k] == Fact(ns[k])
    ensures Accepted(Problems[i].id, RunnerFor(code, rt))
  {
    FactorialPasses(code, rt, Problems[i].testCases, ns, totals);
    AcceptedOnProblem(i, RunnerFor(code, rt));
  }

  /** Code routed to the factorial rule is accepted for problem 9. */
  lemma FactorialSolvesProblem(code: string, rt: FloatArith)
    requires SelectRule(code, true) == Factorial
    ensures Accepted(Problems[8].id, RunnerFor(code, rt))
  {
    var ns, totals := FactorialCalculatorProblemCases();
    FactorialAccepted(code, rt, 8, ns, totals);
  }

  // ----- Problem 10: Prime Number Checker -----

  /** `n` is prime: greater than 1, with no divisor strictly between 1 and `n`. */
  predicate IsPrime(n: int)
  {
    n > 1 && forall d :: 2 <= d < n ==> !DividesJs(n, d)
  }

  function PrimeWord(n: int): string
  {
    if IsPrime(n) then "Prime" else "Not Prime"
  }

  /** Below 36 a number with no divisor from 2 to 5 is prime. */
  lemma SmallPrime(n: int)
    requires 1 < n < 36
    requires !DividesJs(n, 2) && !DividesJs(n, 3) && !DividesJs(n, 4) && !DividesJs(n, 5)
    ensures IsPrime(n)
  {
    forall i | 2 <= i <= n && i * i <= n ensures !DividesJs(n, i) {
      if i >= 6 {
        SquareMonotone(6, i);
      }
    }
    assert IsPrimeTrial(Int(n));
    PrimeTrialIsPrimality(n);
  }

  /** Code routed to the prime rule says of every integer input whether it is prime. */
  lemma PrimeCase(code: string, rt: FloatArith, n: int)
    requires SelectRule(code, true) == PrimeCheck
    ensures CasePasses(RunnerFor(code, rt), Case(IntToString(n), PrimeWord(n)))
  {
    NumeralInput(n);
    PrimeRule(code, IntToString(n), rt, n);
    WordUnpadded(PrimeWord(n));
  }

  lemma PrimePasses(code: string, rt: FloatArith, cases: seq<TestCase>, ns: seq<int>)
    requires SelectRule(code, true) == PrimeCheck
    requires WordCases(cases, ns, PrimeWord)
    ensures AllPass(CheckOf(RunnerFor(code, rt)), cases)
  {
    forall k | 0 <= k < |cases| ensures CasePasses(RunnerFor(code, rt), cases[k]) {
      PrimeCase(code, rt, ns[k]);
    }
  }

  lemma PrimeCheckerProblemCase0()
    ensures PrimeCheckerProblem.testCases[0] == Case(IntToString(17), PrimeWord(17))
  {
    Numeral17();
    SmallPrime(17);
  }

  lemma PrimeCheckerProblemCase1()
    ensures PrimeCheckerProblem.testCases[1] == Case(IntToString(1), PrimeWord(1))
  {
    Numeral1();
  }

  lemma PrimeCheckerProblemCase2()
    ensures PrimeCheckerProblem.testCases[2] == Case(IntToString(2), PrimeWord(2))
  {
    Numeral2();
  }

  lemma PrimeCheckerProblemCase3()
    ensures PrimeCheckerProblem.testCases[3] == Case(IntToString(15), PrimeWord(15))
  {
    Numeral15();
    assert DividesJs(15, 3);
  }

  lemma PrimeCheckerProblemCase4()
    ensures PrimeCheckerProblem.testCases[4] == Case(IntToString(29), PrimeWord(29))
  {
    Numeral29();
    SmallPrime(29);
  }

  /** The cases of problem 10 are 17, 1, 2, 15 and 29, each expecting whether it is prime. */
  lemma PrimeCheckerProblemCases() returns (ns: seq<int>)
    ensures WordCases(PrimeCheckerProblem.testCases, ns, PrimeWord)
  {
    var cases := PrimeCheckerProblem.testCases;
    ns := [17, 1, 2, 15, 29];
    forall k | 0 <= k < |cases| ensures cases[k] == Case(IntToString(ns[k]), PrimeWord(ns[k])) {
      if k == 0 {
        PrimeCheckerProblemCase0();
      } else if k == 1 {
        PrimeCheckerProblemCase1();
      } else if k == 2 {
        PrimeCheckerProblemCase2();
      } else if k == 3 {
        PrimeCheckerProblemCase3();
      } else {
        PrimeCheckerProblemCase4();
      }
    }
  }

  /** Code routed to the rule is accepted for any problem whose cases follow its pattern. */
  lemma PrimeAccepted(code: string, rt: FloatArith, i: nat, ns: seq<int>)
    requires SelectRule(code, true) == PrimeCheck
    requires i < |Problems|
    requires WordCases(Problems[i].testCases, ns, PrimeWord)
    ensures Accepted(Problems[i].id, RunnerFor(code, rt))
  {
    PrimePasses(code, rt, Problems[i].testCases, ns);
    AcceptedOnProblem(i, RunnerFor(code, rt));
  }

  /** Code routed to the prime rule is accepted for problem 10. */
  lemma PrimeSolvesProblem(code: string, rt: FloatArith)
    requires SelectRule(code, true) == PrimeCheck
    ensures Accepted(Problems[9].id, RunnerFor(code, rt))
  {
    var ns := PrimeCheckerProblemCases();
    PrimeAccepted(code, rt, 9, ns);
  }

  // ----- Problem 6: Count Vowels -----

  /** A line of text whose expected output is its number of vowels, either case. */
  predicate VowelCase(c: TestCase)
  {
    IsTextLine(c.input) && c.expectedOutput == IntToString(VowelsAnyCase(c.input))
  }

  /** The vowels of a concatenation are those of its two parts. */
  lemma {:induction false} VowelsAppend(a: string, b: string)
    ensures VowelsAnyCase(a + b) == VowelsAnyCase(a) + VowelsAnyCase(b)
  {
    if a == [] {
      assert a + b == b;
    } else {
      var ab := a + b;
      assert ab[0] == a[0];
      assert ab[1..] == a[1..] + b;
      VowelsAppend(a[1..], b);
    }
  }

  /** Code routed to the vowel rule prints the vowel count of a line of text, upper case included. */
  lemma CountVowelsCase(code: string, rt: FloatArith, c: TestCase)
    requires SelectRule(code, true) == CountVowels
    requires VowelCase(c)
    ensures CasePasses(RunnerFor(code, rt), c)
  {
    TextInput(c.input);
    CountVowelsRule(code, c.input, rt);
    IntStringUnpadded(VowelsAnyCase(c.input));
  }

  lemma CountVowelsPasses(code: string, rt: FloatArith, cases: seq<TestCase>)
    requires SelectRule(code, true) == CountVowels
    requires forall k :: 0 <= k < |cases| ==> VowelCase(cases[k])
    ensures AllPass(CheckOf(RunnerFor(code, rt)), cases)
  {
    forall k | 0 <= k < |cases| ensures CasePasses(RunnerFor(code, rt), cases[k]) {
      CountVowelsCase(code, rt, cases[k]);
    }
  }

  lemma HelloVowels()
    ensures VowelsAnyCase("Hello") == 2
  {
  }

  lemma SpaceWorldVowels()
    ensures VowelsAnyCase(" World") == 1
  {
  }

  lemma PythonVowels()
    ensures VowelsAnyCase("Python") == 1
  {
  }

  lemma SpaceProgrVowels()
    ensures VowelsAnyCase(" Progr") == 1
  {
  }

  lemma AmmingVowels()
    ensures VowelsAnyCase("amming") == 2
  {
  }

  lemma AeiouVowels()
    ensures VowelsAnyCase("AEIOU") == 5
  {
  }

  lemma XyzVowels()
    ensures VowelsAnyCase("xyz") == 0
  {
  }

  /** The parts of a vowel case, put together. */
  lemma VowelCaseOf(c: TestCase, k: nat)
    requires IsTextLine(c.input) && VowelsAnyCase(c.input) == k && c.expectedOutput == IntToString(k)
    ensures VowelCase(c)
  {
  }

  lemma HelloWorldLine(s: string)
    requires s == "Hello World"
    ensures IsTextLine(s)
  {
  }

  lemma PythonProgrammingLine(s: string)
    requires s == "Python Programming"
    ensures IsTextLine(s)
  {
  }

  lemma HelloWorldVowels(s: string)
    requires s == "Hello World"
    ensures VowelsAnyCase(s) == 3
  {
    var a, b := s[..5], s[5..];
    assert s == a + b;
    assert a == "Hello" && b == " World";
    VowelsAppend(a, b);
    HelloVowels();
    SpaceWorldVowels();
  }

  lemma PythonProgrammingVowels(s: string)
    requires s == "Python Programming"
    ensures VowelsAnyCase(s) == 4
  {
    var a, b, c := s[..6], s[6..12], s[12..];
    assert s == (a + b) + c;
    assert a == "Python" && b == " Progr" && c == "amming";
    VowelsAppend(a, b);
    VowelsAppend(a + b, c);
    PythonVowels();
    SpaceProgrVowels();
    AmmingVowels();
  }

  lemma CountVowelsProblemCase0()
    ensures VowelCase(CountVowelsProblem.testCases[0])
  {
    var c := CountVowelsProblem.testCases[0];
    HelloWorldLine(c.input);
    HelloWorldVowels(c.input);
    Numeral3();
    VowelCaseOf(c, 3);
  }

  lemma CountVowelsProblemCase1()
    ensures VowelCase(CountVowelsProblem.testCases[1])
  {
    var c := CountVowelsProblem.testCases[1];
    PythonProgrammingLine(c.input);
    PythonProgrammingVowels(c.input);
    Numeral4();
    VowelCaseOf(c, 4);
  }

  lemma CountVowelsProblemCase2()
    ensures VowelCase(CountVowelsProblem.testCases[2])
  {
    var c := CountVowelsProblem.testCases[2];
    AeiouVowels();
    Numeral5();
    VowelCaseOf(c, 5);
  }

  lemma CountVowelsProblemCase3()
    ensures VowelCase(CountVowelsProblem.testCases[3])
  {
    var c := CountVowelsProblem.testCases[3];
    XyzVowels();
    Numeral0();
    VowelCaseOf(c, 0);
  }

  /** The cases of problem 6 are lines of text expecting their vowel counts, upper-case vowels among them. */
  lemma CountVowelsProblemCases()
    ensures forall k :: 0 <= k < |CountVowelsProblem.testCases| ==> VowelCase(CountVowelsProblem.testCases[k])
  {
    forall k | 0 <= k < |CountVowelsProblem.testCases| ensures VowelCase(CountVowelsProblem.testCases[k]) {
      if k == 0 {
        CountVowelsProblemCase0();
      } else if k == 1 {
        CountVowelsProblemCase1();
      } else if k == 2 {
        CountVowelsProblemCase2();
      } else {
        CountVowelsProblemCase3();
      }
    }
  }

  /** Code routed to the rule is accepted for any problem whose cases follow its pattern. */
  lemma CountVowelsAccepted(code: string, rt: FloatArith, i: nat)
    requires SelectRule(code, true) == CountVowels
    requires i < |Problems|
    requires forall k :: 0 <= k < |Problems[i].testCases| ==> VowelCase(Problems[i].testCases[k])
    ensures Accepted(Problems[i].id, RunnerFor(code, rt))
  {
    CountVowelsPasses(code, rt, Problems[i].testCases);
    AcceptedOnProblem(i, RunnerFor(code, rt));
  }

  /** Code routed to the vowel rule is accepted for problem 6. */
  lemma CountVowelsSolvesProblem(code: string, rt: FloatArith)
    requires SelectRule(code, true) == CountVowels
    ensures Accepted(Problems[5].id, RunnerFor(code, rt))
  {
    CountVowelsProblemCases();
    CountVowelsAccepted(code, rt, 5);
  }

  // ----- Problem 7: Reverse a String -----

  /** `t` is `s` read from its last character to its first. */
  predicate Backwards(s: string, t: string)
  {
    |t| == |s| && forall i :: 0 <= i < |s| ==> t[i] == s[|s| - 1 - i]
  }

  /** A line of text whose expected output is the line read backwards. */
  predicate BackwardsCase(c: TestCase)
  {
    IsTextLine(c.input) && Backwards(c.input, c.expectedOutput)
  }

  /** Code routed to the reverse rule prints a line of text backwards. */
  lemma ReverseCase(code: string, rt: FloatArith, c: TestCase)
    requires SelectRule(code, true) == ReverseText
    requires BackwardsCase(c)
    ensures CasePasses(RunnerFor(code, rt), c)
  {
    var s := c.input;
    TextInput(s);
    ReverseRule(code, s, rt);
    assert Reverse(s) == c.expectedOutput;
    TrimKeepsUnpadded(Reverse(s));
  }

  lemma ReversePasses(code: string, rt: FloatArith, cases: seq<TestCase>)
    requires SelectRule(code, true) == ReverseText
    requires forall k :: 0 <= k < |cases| ==> BackwardsCase(cases[k])
    ensures AllPass(CheckOf(RunnerFor(code, rt)), cases)
  {
    forall k | 0 <= k < |cases| ensures CasePasses(RunnerFor(code, rt), cases[k]) {
      ReverseCase(code, rt, cases[k]);
    }
  }

  lemma ReverseStringProblemCase0()
    ensures BackwardsCase(ReverseStringProblem.testCases[0])
  {
  }

  lemma ReverseStringProblemCase1()
    ensures BackwardsCase(ReverseStringProblem.testCases[1])
  {
  }

  lemma ReverseStringProblemCase2()
    ensures BackwardsCase(ReverseStringProblem.testCases[2])
  {
  }

  lemma ReverseStringProblemCase3()
    ensures BackwardsCase(ReverseStringProblem.testCases[3])
  {
  }

  /** The cases of problem 7 are lines expecting themselves backwards, a one-letter word and an inner space among them. */
  lemma ReverseStringProblemCases()
    ensures forall k :: 0 <= k < |ReverseStringProblem.testCases| ==> BackwardsCase(ReverseStringProblem.testCases[k])
  {
    forall k | 0 <= k < |ReverseStringProblem.testCases| ensures BackwardsCase(ReverseStringProblem.testCases[k]) {
      if k == 0 {
        ReverseStringProblemCase0();
      } else if k == 1 {
        ReverseStringProblemCase1();
      } else if k == 2 {
        ReverseStringProblemCase2();
      } else {
        ReverseStringProblemCase3();
      }
    }
  }

  /** Code routed to the rule is accepted for any problem whose cases follow its pattern. */
  lemma ReverseAccepted(code: string, rt: FloatArith, i: nat)
    requires SelectRule(code, true) == ReverseText
    requires i < |Problems|
    requires forall k :: 0 <= k < |Problems[i].testCases| ==> BackwardsCase(Problems[i].testCases[k])
    ensures Accepted(Problems[i].id, RunnerFor(code, rt))
  {
    ReversePasses(code, rt, Problems[i].testCases);
    AcceptedOnProblem(i, RunnerFor(code, rt));
  }

  /** Code routed to the reverse rule is accepted for problem 7. */
  lemma ReverseSolvesProblem(code: string, rt: FloatArith)
    requires SelectRule(code, true) == ReverseText
    ensures Accepted(Problems[6].id, RunnerFor(code, rt))
  {
    ReverseStringProblemCases();
    ReverseAccepted(code, rt, 6);
  }

  // ----- Problem 8: Find Maximum in List -----

  /** The numerals of `xs`, in order. */
  function Numerals(xs: seq<int>): (ns: seq<string>)
    ensures |ns| == |xs|
    ensures forall i :: 0 <= i < |xs| ==> ns[i] == IntToString(xs[i])
  {
    if xs == [] then [] else [IntToString(xs[0])] + Numerals(xs[1..])
  }

  /** The largest element of a non-empty list. */
  function Maximum(xs: seq<int>): (m: int)
    requires |xs| >= 1
    ensures m in xs
    ensures forall i :: 0 <= i < |xs| ==> xs[i] <= m
  {
    if |xs| == 1 then xs[0]
    else
      var rest := Maximum(xs[1..]);
      assert forall i :: 1 <= i < |xs| ==> xs[i] == xs[1..][i - 1];
      if xs[0] >= rest then xs[0] else rest
  }

  /** The input of a maximum case: the count on the first line, the numbers space-separated on the second. */
  function ListInput(xs: seq<int>): string
  {
    IntToString(|xs|) + "\n" + Join(Numerals(xs), ' ')
  }

  /** A case giving the list `xs` and expecting its maximum. */
  predicate MaxCase(c: TestCase, xs: seq<int>)
  {
    |xs| >= 1 && c == Case(ListInput(xs), IntToString(Maximum(xs)))
  }

  /** Cases giving the lists of `lists`, in order, each expecting its maximum. */
  predicate MaxCases(cases: seq<TestCase>, lists: seq<seq<int>>)
  {
    |cases| == |lists| && forall k :: 0 <= k < |cases| ==> MaxCase(cases[k], lists[k])
  }

  /** The last character of a join is the last character of its last piece. */
  lemma {:induction false} JoinEndsWithLastPiece(pieces: seq<string>, sep: char)
    requires |pieces| >= 1 && pieces[|pieces| - 1] != []
    ensures var j := Join(pieces, sep); var last := pieces[|pieces| - 1];
      j != [] && j[|j| - 1] == last[|last| - 1]
  {
    if |pieces| > 1 {
      JoinEndsWithLastPiece(pieces[1..], sep);
    }
  }

  /** No numeral of a list is empty or holds a space or a line break. */
  lemma NumeralsArePlain(xs: seq<int>)
    ensures forall k :: 0 <= k < |xs| ==> Numerals(xs)[k] != [] && ' ' !in Numerals(xs)[k] && '\n' !in Numerals(xs)[k]
  {
    forall k | 0 <= k < |xs| ensures Numerals(xs)[k] != [] && ' ' !in Numerals(xs)[k] && '\n' !in Numerals(xs)[k] {
      NumeralShape(xs[k]);
    }
  }

  /** The second line of a maximum case is one line, ending in a digit. */
  lemma ListLineShape(xs: seq<int>)
    requires |xs| >= 1
    ensures var line := Join(Numerals(xs), ' ');
      line != [] && '\n' !in line && !IsWhitespace(line[|line| - 1])
  {
    var ns := Numerals(xs);
    NumeralsArePlain(xs);
    JoinKeepsOut(ns, ' ', '\n');
    JoinEndsWithLastPiece(ns, ' ');
    NumeralShape(xs[|xs| - 1]);
  }

  /** Two lines joined by a line break, with no padding outside, split back into those lines. */
  lemma TwoLines(head: string, line: string)
    requires head != [] && line != [] && '\n' !in head && '\n' !in line
    requires !IsWhitespace(head[0]) && !IsWhitespace(line[|line| - 1])
    ensures Lines(head + "\n" + line) == [head, line]
  {
    var input := head + "\n" + line;
    assert input[0] == head[0] && input[|input| - 1] == line[|line| - 1];
    TrimKeepsUnpadded(input);
    SplitAtSeparator(head, line, '\n');
    SplitWithoutSeparator(line, '\n');
  }

  /** The input of a maximum case splits into exactly its two lines. */
  lemma ListLines(xs: seq<int>)
    requires |xs| >= 1
    ensures Lines(ListInput(xs)) == [IntToString(|xs|), Join(Numerals(xs), ' ')]
  {
    ListLineShape(xs);
    NumeralShape(|xs|);
    TwoLines(IntToString(|xs|), Join(Numerals(xs), ' '));
  }

  /** The second line of a maximum case parses back to the list. */
  lemma ListNumbers(xs: seq<int>)
    requires |xs| >= 1
    ensures var nums := Numbers(Split(Join(Numerals(xs), ' '), ' '));
      |nums| == |xs| && forall k :: 0 <= k < |xs| ==> nums[k] == Int(xs[k])
  {
    var ns := Numerals(xs);
    NumeralsArePlain(xs);
    SplitJoin(ns, ' ');
    forall k | 0 <= k < |xs| ensures ToNumber(ns[k]) == Int(xs[k]) {
      ToNumberOfIntString(xs[k]);
    }
  }

  /** `Math.max` of numbers that are all integers is the largest of them. */
  lemma MathMaxOfInts(nums: seq<IntOrNaN>, xs: seq<int>)
    requires |xs| >= 1 && |nums| == |xs|
    requires forall k :: 0 <= k < |xs| ==> nums[k] == Int(xs[k])
    ensures MathMax(nums) == Int(Maximum(xs))
  {
    var m := MathMax(nums);
    var i :| 0 <= i < |nums| && nums[i] == m;
    var j :| 0 <= j < |xs| && xs[j] == Maximum(xs);
    assert xs[i] <= Maximum(xs);
    assert nums[j].value <= m.value;
  }

  /** `Math.max` of the parsed second line is the list's maximum. */
  lemma ListMaximum(xs: seq<int>)
    requires |xs| >= 1
    ensures MathMax(Numbers(Split(Join(Numerals(xs), ' '), ' '))) == Int(Maximum(xs))
  {
    ListNumbers(xs);
    MathMaxOfInts(Numbers(Split(Join(Numerals(xs), ' '), ' ')), xs);
  }

  /** A case whose input is `head`, a line break and `line`, and whose expected output is `out`. */
  predicate TwoLineCase(c: TestCase, head: string, line: string, out: string)
  {
    |c.input| == |head| + 1 + |line| && c.input[..|head|] == head && c.input[|head|] == '\n'
    && c.input[|head| + 1..] == line && c.expectedOutput == out && c.isHidden == None
  }

  /** `head`, `line` and `out` are the count line, the number line and the answer for the list `xs`. */
  predicate ListTexts(xs: seq<int>, head: string, line: string, m: int, out: string)
  {
    |xs| >= 1 && IntToString(|xs|) == head && Join(Numerals(xs), ' ') == line
    && Maximum(xs) == m && IntToString(m) == out
  }

  /** The parts of a maximum case, put together. */
  lemma MaxCaseOf(c: TestCase, xs: seq<int>, head: string, line: string, m: int, out: string)
    requires TwoLineCase(c, head, line, out) && ListTexts(xs, head, line, m, out)
    ensures MaxCase(c, xs)
  {
    assert c.input == c.input[..|head|] + [c.input[|head|]] + c.input[|head| + 1..];
    assert c.input == ListInput(xs);
    assert c == Case(ListInput(xs), IntToString(Maximum(xs)));
  }

  /** Code routed to the maximum rule prints the maximum of a list given as count and numbers. */
  lemma MaxOfListCase(code: string, rt: FloatArith, c: TestCase, xs: seq<int>)
    requires SelectRule(code, true) == MaxOfList
    requires MaxCase(c, xs)
    ensures CasePasses(RunnerFor(code, rt), c)
  {
    ListLines(xs);
    ListMaximum(xs);
    NumeralShape(|xs|);
    MaxOfListRule(code, c.input, rt);
    IntStringUnpadded(Maximum(xs));
  }

  lemma MaxOfListPasses(code: string, rt: FloatArith, cases: seq<TestCase>, lists: seq<seq<int>>)
    requires SelectRule(code, true) == MaxOfList
    requires MaxCases(cases, lists)
    ensures AllPass(CheckOf(RunnerFor(code, rt)), cases)
  {
    forall k | 0 <= k < |cases| ensures CasePasses(RunnerFor(code, rt), cases[k]) {
      MaxOfListCase(code, rt, cases[k], lists[k]);
    }
  }

  lemma FindMaximumProblemNumerals0()
    ensures Numerals([3, 7, 2, 9, 1]) == ["3", "7", "2", "9", "1"]
  {
    Numeral1();
    Numeral2();
    Numeral3();
    Numeral7();
    Numeral9();
  }

  lemma FindMaximumProblemLine0()
    ensures Join(["3", "7", "2", "9", "1"], ' ') == "3 7 2 9 1"
  {
  }

  lemma FindMaximumProblemMaximum0()
    ensures Maximum([3, 7, 2, 9, 1]) == 9
  {
  }

  lemma FindMaximumProblemText0()
    ensures TwoLineCase(FindMaximumProblem.testCases[0], "5", "3 7 2 9 1", "9")
  {
  }

  lemma FindMaximumProblemList0()
    ensures ListTexts([3, 7, 2, 9, 1], "5", "3 7 2 9 1", 9, "9")
  {
    FindMaximumProblemNumerals0();
    FindMaximumProblemLine0();
    FindMaximumProblemMaximum0();
    Numeral5();
    Numeral9();
  }

  lemma FindMaximumProblemCase0()
    ensures MaxCase(FindMaximumProblem.testCases[0], [3, 7, 2, 9, 1])
  {
    FindMaximumProblemText0();
    FindMaximumProblemList0();
    MaxCaseOf(FindMaximumProblem.testCases[0], [3, 7, 2, 9, 1], "5", "3 7 2 9 1", 9, "9");
  }

  lemma FindMaximumProblemNumerals1()
    ensures Numerals([-5, -2, -8]) == ["-5", "-2", "-8"]
  {
    NumeralMinus8();
    NumeralMinus5();
    NumeralMinus2();
  }

  lemma FindMaximumProblemLine1()
    ensures Join(["-5", "-2", "-8"], ' ') == "-5 -2 -8"
  {
  }

  lemma FindMaximumProblemMaximum1()
    ensures Maximum([-5, -2, -8]) == -2
  {
  }

  lemma FindMaximumProblemText1()
    ensures TwoLineCase(FindMaximumProblem.testCases[1], "3", "-5 -2 -8", "-2")
  {
  }

  lemma FindMaximumProblemList1()
    ensures ListTexts([-5, -2, -8], "3", "-5 -2 -8", -2, "-2")
  {
    FindMaximumProblemNumerals1();
    FindMaximumProblemLine1();
    FindMaximumProblemMaximum1();
    Numeral3();
    NumeralMinus2();
  }

  lemma FindMaximumProblemCase1()
    ensures MaxCase(FindMaximumProblem.testCases[1], [-5, -2, -8])
  {
    FindMaximumProblemText1();
    FindMaximumProblemList1();
    MaxCaseOf(FindMaximumProblem.testCases[1], [-5, -2, -8], "3", "-5 -2 -8", -2, "-2");
  }

  lemma FindMaximumProblemNumerals2()
    ensures Numerals([42]) == ["42"]
  {
    Numeral42();
  }

  lemma FindMaximumProblemLine2()
    ensures Join(["42"], ' ') == "42"
  {
  }

  lemma FindMaximumProblemMaximum2()
    ensures Maximum([42]) == 42
  {
  }

  lemma FindMaximumProblemText2()
    ensures TwoLineCase(FindMaximumProblem.testCases[2], "1", "42", "42")
  {
  }

  lemma FindMaximumProblemList2()
    ensures ListTexts([42], "1", "42", 42, "42")
  {
    FindMaximumProblemNumerals2();
    FindMaximumProblemLine2();
    FindMaximumProblemMaximum2();
    Numeral1();
    Numeral42();
  }

  lemma FindMaximumProblemCase2()
    ensures MaxCase(FindMaximumProblem.testCases[2], [42])
  {
    FindMaximumProblemText2();
    FindMaximumProblemList2();
    MaxCaseOf(FindMaximumProblem.testCases[2], [42], "1", "42", 42, "42");
  }

  lemma FindMaximumProblemNumerals3()
    ensures Numerals([10, 10, 10, 10]) == ["10", "10", "10", "10"]
  {
    Numeral10();
  }

  lemma FindMaximumProblemLine3()
    ensures Join(["10", "10", "10", "10"], ' ') == "10 10 10 10"
  {
  }

  lemma FindMaximumProblemMaximum3()
    ensures Maximum([10, 10, 10, 10]) == 10
  {
  }

  lemma FindMaximumProblemText3()
    ensures TwoLineCase(FindMaximumProblem.testCases[3], "4", "10 10 10 10", "10")
  {
  }

  lemma FindMaximumProblemList3()
    ensures ListTexts([10, 10, 10, 10], "4", "10 10 10 10", 10, "10")
  {
    FindMaximumProblemNumerals3();
    FindMaximumProblemLine3();
    FindMaximumProblemMaximum3();
    Numeral4();
    Numeral10();
  }

  lemma FindMaximumProblemCase3()
    ensures MaxCase(FindMaximumProblem.testCases[3], [10, 10, 10, 10])
  {
    FindMaximumProblemText3();
    FindMaximumProblemList3();
    MaxCaseOf(FindMaximumProblem.testCases[3], [10, 10, 10, 10], "4", "10 10 10 10", 10, "10");
  }

  /** The cases of problem 8 are four lists, negative numbers and repeats among them, each expecting its maximum. */
  lemma FindMaximumProblemCases() returns (lists: seq<seq<int>>)
    ensures MaxCases(FindMaximumProblem.testCases, lists)
  {
    lists := [[3, 7, 2, 9, 1], [-5, -2, -8], [42], [10, 10, 10, 10]];
    forall k | 0 <= k < |lists| ensures MaxCase(FindMaximumProblem.testCases[k], lists[k]) {
      if k == 0 {
        FindMaximumProblemCase0();
      } else if k == 1 {
        FindMaximumProblemCase1();
      } else if k == 2 {
        FindMaximumProblemCase2();
      } else {
        FindMaximumProblemCase3();
      }
    }
  }

  /** Code routed to the rule is accepted for any problem whose cases follow its pattern. */
  lemma MaxOfListAccepted(code: string, rt: FloatArith, i: nat, lists: seq<seq<int>>)
    requires SelectRule(code, true) == MaxOfList
    requires i < |Problems|
    requires MaxCases(Problems[i].testCases, lists)
    ensures Accepted(Problems[i].id, RunnerFor(code, rt))
  {
    MaxOfListPasses(code, rt, Problems[i].testCases, lists);
    AcceptedOnProblem(i, RunnerFor(code, rt));
  }

  /** Code routed to the maximum rule is accepted for problem 8. */
  lemma MaxOfListSolvesProblem(code: string, rt: FloatArith)
    requires SelectRule(code, true) == MaxOfList
    ensures Accepted(Problems[7].id, RunnerFor(code, rt))
  {
    var lists := FindMaximumProblemCases();
    MaxOfListAccepted(code, rt, 7, lists);
  }

  // ----- The numerals the cases are written with -----

  lemma NumeralMinus8()
    ensures IntToString(-8) == "-8"
  {
  }

  lemma NumeralMinus5()
    ensures IntToString(-5) == "-5"
  {
  }

  lemma NumeralMinus3()
    ensures IntToString(-3) == "-3"
  {
  }

  lemma NumeralMinus2()
    ensures IntToString(-2) == "-2"
  {
  }

  lemma Numeral0()
    ensures IntToString(0) == "0"
  {
  }

  lemma Numeral1()
    ensures IntToString(1) == "1"
  {
  }

  lemma Numeral2()
    ensures IntToString(2) == "2"
  {
  }

  lemma Numeral3()
    ensures IntToString(3) == "3"
  {
  }

  lemma Numeral4()
    ensures IntToString(4) == "4"
  {
  }

  lemma Numeral5()
    ensures IntToString(5) == "5"
  {
  }

  lemma Numeral7()
    ensures IntToString(7) == "7"
  {
  }

  lemma Numeral8()
    ensures IntToString(8) == "8"
  {
  }

  lemma Numeral9()
    ensures IntToString(9) == "9"
  {
  }

  lemma Numeral10()
    ensures IntToString(10) == "10"
  {
  }

  lemma Numeral15()
    ensures IntToString(15) == "15"
  {
  }

  lemma Numeral17()
    ensures IntToString(17) == "17"
  {
  }

  lemma Numeral24()
    ensures IntToString(24) == "24"
  {
  }

  lemma Numeral29()
    ensures IntToString(29) == "29"
  {
  }

  lemma Numeral42()
    ensures IntToString(42) == "42"
  {
  }

  lemma Numeral45()
    ensures IntToString(45) == "45"
  {
  }

  lemma Numeral55()
    ensures IntToString(55) == "55"
  {
  }

  lemma Numeral65()
    ensures IntToString(65) == "65"
  {
  }

  lemma Numeral75()
    ensures IntToString(75) == "75"
  {
  }

  lemma Numeral85()
    ensures IntToString(85) == "85"
  {
  }

  lemma Numeral95()
    ensures IntToString(95) == "95"
  {
  }

  lemma Numeral100()
    ensures IntToString(100) == "100"
  {
  }

  lemma Numeral120()
    ensures IntToString(120) == "120"
  {
  }

  lemma Numeral5050()
    ensures IntToString(5050) == "5050"
  {
    assert NatToString(505) == "505";
    assert NatToString(5050) == NatToString(505) + [DigitChar(0)];
  }

}
