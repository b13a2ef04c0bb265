/**
 * What a submission is judged by: each graded case is run and compared with
 * its expected output, both sides trimmed. The runner is a parameter here; the
 * service passes the evaluator applied to the submitted code.
 */
module Grading {
  import opened Wrappers
  import opened JsStrings
  import opened Evaluator
  import opened Catalogue

  /** Runs the submitted code on one case's input. */
  type Runner = string -> ExecutionResult

  /** The evaluator as a runner for `code`. */
  function RunnerFor(code: string, rt: FloatArith): (run: Runner)
    ensures forall input :: run(input) == Evaluate(code, input, rt)
  {
    input => Evaluate(code, input, rt)
  }

  /** A case passes when the run succeeded and its trimmed output is the trimmed expected output. */
  predicate CasePasses(run: Runner, c: TestCase)
  {
    run(c.input).success && Trim(run(c.input).output) == Trim(c.expectedOutput)
  }

  /** The per-case test of `run`, as a value. */
  function CheckOf(run: Runner): (check: TestCase -> bool)
    ensures forall c :: check(c) == CasePasses(run, c)
  {
    c => CasePasses(run, c)
  }

  predicate AllPass(check: TestCase -> bool, cases: seq<TestCase>)
  {
    forall k :: 0 <= k < |cases| ==> check(cases[k])
  }

  /**
   * The index at which the in-order run stops: the first case that fails
   * `check`, or the number of cases when none fails.
   */
  function FirstFailure(check: TestCase -> bool, cases: seq<TestCase>): (k: nat)
    ensures k <= |cases|
    ensures forall j :: 0 <= j < k ==> check(cases[j])
    ensures k < |cases| ==> !check(cases[k])
  {
    if cases == [] then 0
    else if !check(cases[0]) then 0
    else 1 + FirstFailure(check, cases[1..])
  }

  /** The run reaches the end of the list exactly when every case passes. */
  lemma FirstFailureIsEnd(check: TestCase -> bool, cases: seq<TestCase>)
    ensures FirstFailure(check, cases) == |cases| <==> AllPass(check, cases)
  {
    var k := FirstFailure(check, cases);
    if k < |cases| {
      assert !check(cases[k]);
    }
  }

  /**
   * The verdict of a submission: false for an id that is no problem's,
   * otherwise whether every case of that problem passes.
   */
  predicate Accepted(problemId: string, run: Runner)
  {
    match FindProblem(problemId)
    case None => false
    case Some(p) => AllPass(CheckOf(run), p.testCases)
  }

  /** A problem with no graded cases would accept any code. */
  lemma NoCasesAcceptsAll(check: TestCase -> bool)
    ensures AllPass(check, [])
    ensures FirstFailure(check, []) == 0
  {
  }

  /** An id that is not in the catalogue is never accepted. */
  lemma UnknownIdRejected(problemId: string, run: Runner)
    requires forall i :: 0 <= i < |Problems| ==> Problems[i].id != problemId
    ensures !Accepted(problemId, run)
  {
  }

  /** A catalogue problem's own id is accepted exactly when every one of its cases passes. */
  lemma AcceptedOnProblem(i: nat, run: Runner)
    requires i < |Problems|
    ensures Accepted(Problems[i].id, run) <==> AllPass(CheckOf(run), Problems[i].testCases)
  {
    FindProblemById(i);
  }

  /** A failing case among a problem's cases rejects the submission, wherever it sits. */
  lemma OneFailureRejects(i: nat, run: Runner, k: nat)
    requires i < |Problems| && k < |Problems[i].testCases|
    requires !CasePasses(run, Problems[i].testCases[k])
    ensures !Accepted(Problems[i].id, run)
    ensures FirstFailure(CheckOf(run), Problems[i].testCases) <= k
  {
    FindProblemById(i);
  }
}
