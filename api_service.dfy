/**
 * The service object behind every page: it owns the tutorial map, the solved
 * set, the signed-in user's progress record and the storage slot they are
 * saved to, and it updates them in place.
 */
module Service {
  import opened Wrappers
  import opened JsStrings
  import opened Evaluator
  import opened Catalogue
  import opened Grading
  import opened Progress

  /** A tutorial as `getTutorial` returns it: its id and whether it is marked complete. */
  datatype TutorialView = TutorialView(id: string, isCompleted: bool)

  /** A problem as `getProblem` returns it: the catalogue entry and whether it is solved. */
  datatype ProblemView = ProblemView(problem: Problem, isSolved: bool)

  class ApiService {
    /** `userProgress`: tutorial id to completion flag, in insertion order. */
    var userProgress: Entries
    /** `solvedProblems`: the ids of solved problems, in insertion order. */
    var solvedProblems: seq<string>
    /** `currentUser.progress`, without its `lastActivity` time stamp. */
    var progress: UserProgress
    /** The single storage slot the progress is saved to. */
    var storage: Option<Stored>

    /** The collections are a proper map and set, and the progress record is up to date. */
    ghost predicate Valid()
      reads this
    {
      KeysDistinct(userProgress) && Distinct(solvedProblems)
      && progress == Stats(userProgress, solvedProblems)
    }

    /** `map.get(id) || false`. */
    function IsCompleted(id: string): bool
      reads this
    {
      MapGet(userProgress, id) == Some(true)
    }

    /** `set.has(id)`. */
    function IsSolved(id: string): bool
      reads this
    {
      id in solvedProblems
    }

    /** The service starts with a fresh user's progress and restores whatever `saved` holds. */
    constructor(saved: Option<Stored>)
      ensures Valid()
      ensures storage == saved
      ensures saved.None? ==> userProgress == [] && solvedProblems == [] && progress == InitialProgress
      ensures saved.Some? ==> (userProgress, solvedProblems) == Decode(saved.value)
    {
      userProgress := [];
      solvedProblems := [];
      progress := InitialProgress;
      storage := saved;
      new;
      StatsOfNothing();
      LoadProgress();
    }

    /** `loadProgress`: rebuild the map and the set from the slot, if it holds anything. */
    method LoadProgress()
      requires Valid()
      modifies this
      ensures Valid()
      ensures storage == old(storage)
      ensures old(storage).None? ==> unchanged(this)
      ensures old(storage).Some? ==> (userProgress, solvedProblems) == Decode(old(storage).value)
    {
      if storage.Some? {
        var restored := Decode(storage.value);
        userProgress := restored.0;
        solvedProblems := restored.1;
        UpdateUserProgress();
      }
    }

    /** `saveProgress`: write the map's entries and the set's elements to the slot. */
    method SaveProgress()
      modifies this
      ensures storage == Some(Encode(userProgress, solvedProblems))
      ensures userProgress == old(userProgress) && solvedProblems == old(solvedProblems)
      ensures progress == old(progress)
    {
      storage := Some(Encode(userProgress, solvedProblems));
    }

    /** `updateUserProgress`: recompute the progress record from the collections. */
    method UpdateUserProgress()
      modifies this
      ensures progress == Stats(userProgress, solvedProblems)
      ensures userProgress == old(userProgress) && solvedProblems == old(solvedProblems)
      ensures storage == old(storage)
    {
      var tutorialsCompleted := TrueCount(userProgress);
      var problemsSolved := |solvedProblems|;
      progress := UserProgress(
        tutorialsCompleted,
        problemsSolved,
        |Problems|,
        RoundedPercentage(tutorialsCompleted + problemsSolved, TotalItems),
        Streak(problemsSolved));
    }

    /** `markTutorialComplete(id)`: any id is accepted and set to true, then progress is recomputed and saved. */
    method MarkTutorialComplete(id: string)
      requires Valid()
      modifies this
      ensures Valid()
      ensures userProgress == MapSet(old(userProgress), id, true)
      ensures solvedProblems == old(solvedProblems)
      ensures storage == Some(Encode(userProgress, solvedProblems))
      ensures IsCompleted(id)
      ensures NoneLower(old(progress), progress)
    {
      MarkNeverLowers(userProgress, solvedProblems, id);
      MapSetKeysDistinct(userProgress, id, true);
      MapSetGet(userProgress, id, true, id);
      userProgress := MapSet(userProgress, id, true);
      UpdateUserProgress();
      SaveProgress();
    }

    /** `getTutorial(id)`: the tutorial with its completion flag, `None` for an unknown id. */
    method GetTutorial(id: string) returns (r: Option<TutorialView>)
      ensures r.None? <==> id !in TutorialIds
      ensures r.Some? ==> r.value == TutorialView(id, IsCompleted(id))
    {
      if id in TutorialIds {
        r := Some(TutorialView(id, IsCompleted(id)));
      } else {
        r := None;
      }
    }

    /** `getTutorials()`: every tutorial, in order, with its completion flag. */
    method GetTutorials() returns (views: seq<TutorialView>)
      ensures |views| == |TutorialIds|
      ensures forall i :: 0 <= i < |views| ==> views[i] == TutorialView(TutorialIds[i], IsCompleted(TutorialIds[i]))
    {
      views := seq(|TutorialIds|, i requires 0 <= i < |TutorialIds| reads this => TutorialView(TutorialIds[i], IsCompleted(TutorialIds[i])));
    }

    /** `getProblem(id)`: the problem with its solved flag, `None` for an unknown id. */
    method GetProblem(id: string) returns (r: Option<ProblemView>)
      ensures r.None? <==> forall i :: 0 <= i < |Problems| ==> Problems[i].id != id
      ensures r.Some? ==> r.value.problem in Problems && r.value.problem.id == id
      ensures r.Some? ==> r.value.problem == FindProblem(id).value && r.value.isSolved == IsSolved(id)
    {
      var p := FindProblem(id);
      if p.None? {
        return None;
      }
      r := Some(ProblemView(p.value, IsSolved(p.value.id)));
    }

    /** `getProblems()`: every problem, in order, with its solved flag. */
    method GetProblems() returns (views: seq<ProblemView>)
      ensures |views| == |Problems|
      ensures forall i :: 0 <= i < |views| ==> views[i] == ProblemView(Problems[i], IsSolved(Problems[i].id))
    {
      views := seq(|Problems|, i requires 0 <= i < |Problems| reads this => ProblemView(Problems[i], IsSolved(Problems[i].id)));
    }

    /** `executeCode(code, input)`: the evaluator's result, which never throws. */
    method ExecuteCode(code: string, input: string, rt: FloatArith) returns (result: ExecutionResult)
      ensures result == Evaluate(code, input, rt)
    {
      result := MockPythonExecution(code, input, rt);
    }

    /**
     * The loop of `submitSolution`: run the cases in order through `run`
     * (`executeCode` on the submitted code) and stop at the first one whose
     * run fails or whose trimmed output differs.
     */
    method RunCases(run: Runner, cases: seq<TestCase>) returns (allTestsPassed: bool)
      ensures allTestsPassed == AllPass(CheckOf(run), cases)
      ensures allTestsPassed <==> FirstFailure(CheckOf(run), cases) == |cases|
    {
      ghost var check := CheckOf(run);
      allTestsPassed := true;
      var i := 0;
      while i < |cases|
        invariant i <= |cases|
        invariant forall j :: 0 <= j < i ==> check(cases[j])
      {
        var result := run(cases[i].input);
        if !result.success || Trim(result.output) != Trim(cases[i].expectedOutput) {
          allTestsPassed := false;
          assert !check(cases[i]);
          break;
        }
        assert check(cases[i]);
        i := i + 1;
      }
      FirstFailureIsEnd(check, cases);
    }

    /**
     * `submitSolution(problemId, code)`: an unknown id fails; otherwise the
     * cases run in order, and only when all pass is the problem recorded as
     * solved and the progress recomputed and saved.
     */
    method SubmitSolution(problemId: string, code: string, rt: FloatArith) returns (allTestsPassed: bool)
      requires Valid()
      modifies this
      ensures Valid()
      ensures allTestsPassed == Accepted(problemId, RunnerFor(code, rt))
      ensures allTestsPassed ==>
        && solvedProblems == SetAdd(old(solvedProblems), problemId)
        && userProgress == old(userProgress)
        && storage == Some(Encode(userProgress, solvedProblems))
      ensures !allTestsPassed ==> unchanged(this)
    {
      var problem := GetProblem(problemId);
      if problem.None? {
        return false;
      }
      allTestsPassed := RunCases(RunnerFor(code, rt), problem.value.problem.testCases);
      if allTestsPassed {
        RecordSolved(problemId);
      }
    }

    /** The success path of `submitSolution`: add the id to the solved set, recompute and save. */
    method RecordSolved(problemId: string)
      requires Valid()
      modifies this
      ensures Valid()
      ensures solvedProblems == SetAdd(old(solvedProblems), problemId)
      ensures userProgress == old(userProgress)
      ensures storage == Some(Encode(userProgress, solvedProblems))
      ensures NoneLower(old(progress), progress)
    {
      SolveNeverLowers(userProgress, solvedProblems, problemId);
      solvedProblems := SetAdd(solvedProblems, problemId);
      UpdateUserProgress();
      SaveProgress();
    }
  }
}
