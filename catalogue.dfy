/**
 * The static learning content: the ten practice problems with their sample
 * and graded test cases, and the ids of the four tutorials (their lesson text
 * plays no part in grading or progress).
 */
module Catalogue {
  import opened Wrappers

  /** One graded case; `isHidden` is absent (`None`) when the literal omits it. */
  datatype TestCase = TestCase(input: string, expectedOutput: string, isHidden: Option<bool>)

  /**
   * A practice problem as submissions are judged against it: its id, the sample shown with
   * it and its graded cases in declared order.
   */
  datatype Problem = Problem(id: string, sampleInput: string, sampleOutput: string, testCases: seq<TestCase>)

  function Case(input: string, expectedOutput: string): TestCase
  {
    TestCase(input, expectedOutput, None)
  }

  /** Problem 1, "Hello World". */
  const HelloWorldProblem: Problem :=
    Problem("1", "", "Hello, World!",
      [Case("", "Hello, World!")])

  /** Problem 2, "Simple Calculator". */
  const SimpleCalculatorProblem: Problem :=
    Problem("2", "5.0\n+\n3.0", "8.0",
      [Case("5.0\n+\n3.0", "8.0"), Case("10\n-\n4", "6"), Case("7\n*\n6", "42"), Case("15\n/\n3", "5.0")])

  /** Problem 3, "Even or Odd". */
  const EvenOrOddProblem: Problem :=
    Problem("3", "7", "Odd",
      [Case("7", "Odd"), Case("8", "Even"), Case("0", "Even"), Case("-3", "Odd")])

  /** Problem 4, "Grade Calculator". */
  const GradeCalculatorProblem: Problem :=
    Problem("4", "85", "B",
      [Case("95", "A"), Case("85", "B"), Case("75", "C"), Case("65", "D"), Case("45", "F")])

  /** Problem 5, "Sum of Numbers". */
  const SumOfNumbersProblem: Problem :=
    Problem("5", "5", "15",
      [Case("5", "15"), Case("1", "1"), Case("10", "55"), Case("100", "5050")])

  /** Problem 6, "Count Vowels". */
  const CountVowelsProblem: Problem :=
    Problem("6", "Hello World", "3",
      [Case("Hello World", "3"), Case("Python Programming", "4"), Case("AEIOU", "5"), Case("xyz", "0")])

  /** Problem 7, "Reverse a String". */
  const ReverseStringProblem: Problem :=
    Problem("7", "hello", "olleh",
      [Case("hello", "olleh"), Case("Python", "nohtyP"), Case("Hello World", "dlroW olleH"), Case("a", "a")])

  /** Problem 8, "Find Maximum in List". */
  const FindMaximumProblem: Problem :=
    Problem("8", "5\n3 7 2 9 1", "9",
      [Case("5\n3 7 2 9 1", "9"), Case("3\n-5 -2 -8", "-2"), Case("1\n42", "42"), Case("4\n10 10 10 10", "10")])

  /** Problem 9, "Factorial Calculator". */
  const FactorialCalculatorProblem: Problem :=
    Problem("9", "5", "120",
      [Case("5", "120"), Case("0", "1"), Case("1", "1"), Case("4", "24")])

  /** Problem 10, "Prime Number Checker". */
  const PrimeCheckerProblem: Problem :=
    Problem("10", "17", "Prime",
      [Case("17", "Prime"), Case("1", "Not Prime"), Case("2", "Prime"), Case("15", "Not Prime"), Case("29", "Prime")])

  /** The problem list in its declared order. */
  const Problems: seq<Problem> :=
    [HelloWorldProblem, SimpleCalculatorProblem, EvenOrOddProblem, GradeCalculatorProblem,
     SumOfNumbersProblem, CountVowelsProblem, ReverseStringProblem, FindMaximumProblem,
     FactorialCalculatorProblem, PrimeCheckerProblem]

  /** The tutorial ids in their declared order. */
  const TutorialIds: seq<string> := ["1", "2", "3", "4"]

  /** `Array.prototype.find` on a list of problems: the first problem whose id is `id`. */
  function FindProblemIn(ps: seq<Problem>, id: string): (r: Option<Problem>)
    ensures r.None? <==> forall i :: 0 <= i < |ps| ==> ps[i].id != id
    ensures r.Some? ==> r.value in ps && r.value.id == id
  {
    if ps == [] then None
    else if ps[0].id == id then Some(ps[0])
    else FindProblemIn(ps[1..], id)
  }

  /** `problems.find(p => p.id === id)`. */
  function FindProblem(id: string): Option<Problem>
  {
    FindProblemIn(Problems, id)
  }

  /** `tutorials.find(t => t.id === id)`, reduced to whether the id is a tutorial's. */
  predicate IsTutorialId(id: string)
  {
    id in TutorialIds
  }

  /** The problem ids `'1'` to `'10'`. */
  const ProblemIdList: seq<string> := ["1", "2", "3", "4", "5", "6", "7", "8", "9", "10"]

  /** The problems carry the ids `'1'` to `'10'`, in order. */
  lemma ProblemIds()
    ensures |Problems| == |ProblemIdList| == 10
    ensures forall i :: 0 <= i < |Problems| ==> Problems[i].id == ProblemIdList[i]
  {
  }

  /** No two problems share an id. */
  lemma ProblemIdsDistinct()
    ensures forall i, j :: 0 <= i < j < |Problems| ==> Problems[i].id != Problems[j].id
  {
    ProblemIds();
  }

  /** Looking up a problem's own id finds that problem. */
  lemma FindProblemById(i: nat)
    requires i < |Problems|
    ensures FindProblem(Problems[i].id) == Some(Problems[i])
  {
    ProblemIdsDistinct();
  }

  /** Every problem is graded on at least one case, and no case is marked hidden. */
  lemma CasesDeclared()
    ensures forall i :: 0 <= i < |Problems| ==> |Problems[i].testCases| >= 1
    ensures forall i, k :: 0 <= i < |Problems| && 0 <= k < |Problems[i].testCases| ==>
      Problems[i].testCases[k].isHidden == None
  {
  }

  /** The sample shown with a problem is one of its graded cases. */
  predicate SampleIsGraded(p: Problem)
  {
    exists k :: 0 <= k < |p.testCases| && p.testCases[k] == Case(p.sampleInput, p.sampleOutput)
  }

  lemma SamplesAreGraded()
    ensures forall i :: 0 <= i < |Problems| ==> SampleIsGraded(Problems[i])
  {
    assert Problems[0].testCases[0] == Case(Problems[0].sampleInput, Problems[0].sampleOutput);
    assert Problems[1].testCases[0] == Case(Problems[1].sampleInput, Problems[1].sampleOutput);
    assert Problems[2].testCases[0] == Case(Problems[2].sampleInput, Problems[2].sampleOutput);
    assert Problems[3].testCases[1] == Case(Problems[3].sampleInput, Problems[3].sampleOutput);
    assert Problems[4].testCases[0] == Case(Problems[4].sampleInput, Problems[4].sampleOutput);
    assert Problems[5].testCases[0] == Case(Problems[5].sampleInput, Problems[5].sampleOutput);
    assert Problems[6].testCases[0] == Case(Problems[6].sampleInput, Problems[6].sampleOutput);
    assert Problems[7].testCases[0] == Case(Problems[7].sampleInput, Problems[7].sampleOutput);
    assert Problems[8].testCases[0] == Case(Problems[8].sampleInput, Problems[8].sampleOutput);
    assert Problems[9].testCases[0] == Case(Problems[9].sampleInput, Problems[9].sampleOutput);
  }

  /** The four tutorials have the distinct ids `'1'` to `'4'`. */
  lemma TutorialIdsDistinct()
    ensures |TutorialIds| == 4
    ensures forall i, j :: 0 <= i < j < |TutorialIds| ==> TutorialIds[i] != TutorialIds[j]
  {
  }
}
