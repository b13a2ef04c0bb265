/**
 * The learner's progress: which tutorials are marked complete (a JavaScript
 * `Map<string, boolean>`), which problems are solved (a `Set<string>`), the
 * statistics derived from them, and the save/restore pair that carries both
 * collections through storage.
 *
 * A JavaScript `Map` and `Set` iterate in insertion order, so both are
 * modelled as sequences without repeated keys.
 */
module Progress {
  import opened Wrappers
  import opened Catalogue

  /** The entries of a `Map<string, boolean>`, in insertion order. */
  type Entries = seq<(string, bool)>

  predicate KeysDistinct(m: Entries)
  {
    forall i, j :: 0 <= i < j < |m| ==> m[i].0 != m[j].0
  }

  predicate Distinct(s: seq<string>)
  {
    forall i, j :: 0 <= i < j < |s| ==> s[i] != s[j]
  }

  /** A non-empty sequence is its front followed by its last element. */
  lemma FrontAndLast<T>(s: seq<T>)
    requires s != []
    ensures s[..|s| - 1] + [s[|s| - 1]] == s
  {
  }

  /** The position of the first entry with key `k`; `|m|` when there is none. */
  function KeyIndex(m: Entries, k: string): (i: nat)
    ensures i <= |m|
    ensures i < |m| ==> m[i].0 == k
    ensures forall j :: 0 <= j < i ==> m[j].0 != k
  {
    if m == [] then 0
    else if m[0].0 == k then 0
    else
      var i := KeyIndex(m[1..], k);
      assert forall j :: 0 < j <= i ==> m[j] == m[1..][j - 1];
      1 + i
  }

  /** The first position holding `k` is determined by the keys alone. */
  lemma KeyIndexIs(m: Entries, k: string, i: nat)
    requires i <= |m|
    requires i < |m| ==> m[i].0 == k
    requires forall j :: 0 <= j < i ==> m[j].0 != k
    ensures KeyIndex(m, k) == i
  {
  }

  predicate HasKey(m: Entries, k: string)
  {
    KeyIndex(m, k) < |m|
  }

  /** `map.get(k)`: the value stored under `k`, `None` for `undefined`. */
  function MapGet(m: Entries, k: string): (r: Option<bool>)
    ensures r.None? <==> forall j :: 0 <= j < |m| ==> m[j].0 != k
    ensures r.Some? ==> exists j :: 0 <= j < |m| && m[j] == (k, r.value)
  {
    var i := KeyIndex(m, k);
    if i < |m| then Some(m[i].1) else None
  }

  /**
   * `map.set(k, v)`: an existing key keeps its place and takes the new
   * value; a new key is appended.
   */
  function MapSet(m: Entries, k: string, v: bool): (r: Entries)
    ensures |r| == if HasKey(m, k) then |m| else |m| + 1
    ensures forall j :: 0 <= j < |m| ==> r[j].0 == m[j].0
    ensures forall j :: 0 <= j < |m| && m[j].0 != k ==> r[j] == m[j]
    ensures r[KeyIndex(m, k)] == (k, v)
    ensures !HasKey(m, k) ==> r == m + [(k, v)]
  {
    var i := KeyIndex(m, k);
    if i < |m| then m[i := (k, v)] else m + [(k, v)]
  }

  /** In a map without repeated keys, `get` of an entry's key gives that entry's value. */
  lemma MapGetAt(m: Entries, i: nat)
    requires KeysDistinct(m) && i < |m|
    ensures MapGet(m, m[i].0) == Some(m[i].1)
  {
    KeyIndexIs(m, m[i].0, i);
  }

  /** `set` never introduces a repeated key. */
  lemma MapSetKeysDistinct(m: Entries, k: string, v: bool)
    requires KeysDistinct(m)
    ensures KeysDistinct(MapSet(m, k, v))
  {
    var r := MapSet(m, k, v);
    forall i, j | 0 <= i < j < |r|
      ensures r[i].0 != r[j].0
    {
      if j < |m| {
        assert r[i].0 == m[i].0 && r[j].0 == m[j].0;
      } else {
        assert r[j].0 == k && r[i].0 == m[i].0;
      }
    }
  }

  /** After `set`, `get` of that key gives the new value and other keys are untouched. */
  lemma MapSetGet(m: Entries, k: string, v: bool, other: string)
    requires KeysDistinct(m)
    ensures MapGet(MapSet(m, k, v), k) == Some(v)
    ensures other != k ==> MapGet(MapSet(m, k, v), other) == MapGet(m, other)
  {
    var r := MapSet(m, k, v);
    MapSetKeysDistinct(m, k, v);
    MapGetAt(r, KeyIndex(m, k));
    if other != k {
      var i := KeyIndex(m, other);
      if i < |m| {
        KeyIndexIs(r, other, i);
      } else {
        KeyIndexIs(r, other, |r|);
      }
    }
  }

  /** Setting a key to the value it already holds changes nothing. */
  lemma MapSetIdempotent(m: Entries, k: string, v: bool)
    ensures MapSet(MapSet(m, k, v), k, v) == MapSet(m, k, v)
  {
    var r := MapSet(m, k, v);
    KeyIndexIs(r, k, KeyIndex(m, k));
  }

  /** `set.add(x)`: appends `x` unless it is already there. */
  function SetAdd(s: seq<string>, x: string): (r: seq<string>)
    ensures x in r
    ensures forall y :: y in r <==> y in s || y == x
    ensures Distinct(s) ==> Distinct(r)
    ensures |r| == if x in s then |s| else |s| + 1
  {
    if x in s then s else s + [x]
  }

  /** Adding an element twice is adding it once. */
  lemma SetAddIdempotent(s: seq<string>, x: string)
    ensures SetAdd(SetAdd(s, x), x) == SetAdd(s, x)
  {
  }

  /** The value of the last pair in `es` with key `k`, `None` when no pair has it. */
  function LastValue(es: Entries, k: string): (r: Option<bool>)
    ensures r.None? <==> forall j :: 0 <= j < |es| ==> es[j].0 != k
  {
    if es == [] then None
    else if es[|es| - 1].0 == k then Some(es[|es| - 1].1)
    else LastValue(es[..|es| - 1], k)
  }

  /**
   * `new Map(entries)`: the entries set one after another, so a repeated key
   * keeps the place of its first pair and the value of its last one.
   */
  function FromEntries(es: Entries): (m: Entries)
    ensures KeysDistinct(m)
    ensures forall k :: MapGet(m, k) == LastValue(es, k)
    ensures forall i, j :: 0 <= i < j < |m| ==> KeyIndex(es, m[i].0) < KeyIndex(es, m[j].0)
  {
    if es == [] then []
    else
      var init := es[..|es| - 1];
      var prefix := FromEntries(init);
      FromEntriesStep(init, prefix, es[|es| - 1].0, es[|es| - 1].1);
      FrontAndLast(es);
      MapSet(prefix, es[|es| - 1].0, es[|es| - 1].1)
  }

  /** One more pair keeps `FromEntries`' contract. */
  lemma FromEntriesStep(init: Entries, prefix: Entries, k: string, v: bool)
    requires KeysDistinct(prefix)
    requires forall x :: MapGet(prefix, x) == LastValue(init, x)
    requires forall i, j :: 0 <= i < j < |prefix| ==> KeyIndex(init, prefix[i].0) < KeyIndex(init, prefix[j].0)
    ensures var m := MapSet(prefix, k, v); var es := init + [(k, v)];
      && KeysDistinct(m)
      && (forall x :: MapGet(m, x) == LastValue(es, x))
      && (forall i, j :: 0 <= i < j < |m| ==> KeyIndex(es, m[i].0) < KeyIndex(es, m[j].0))
  {
    var m := MapSet(prefix, k, v);
    var es := init + [(k, v)];
    MapSetKeysDistinct(prefix, k, v);
    assert es[..|es| - 1] == init;
    forall x
      ensures MapGet(m, x) == LastValue(es, x)
    {
      MapSetGet(prefix, k, v, x);
    }
    // every key of the map already has a pair in `init`, at the same first position in `es`
    forall i | 0 <= i < |prefix|
      ensures KeyIndex(es, prefix[i].0) == KeyIndex(init, prefix[i].0) < |init|
    {
      MapGetAt(prefix, i);
      var n := KeyIndex(init, prefix[i].0);
      KeyIndexIs(es, prefix[i].0, n);
    }
    forall i, j | 0 <= i < j < |m|
      ensures KeyIndex(es, m[i].0) < KeyIndex(es, m[j].0)
    {
      if j < |prefix| {
        assert m[i].0 == prefix[i].0 && m[j].0 == prefix[j].0;
      } else {
        assert m[j].0 == k && m[i].0 == prefix[i].0;
        assert !HasKey(prefix, k);
        MapSetGet(prefix, k, v, k);
        assert MapGet(prefix, k).None?;
        KeyIndexIs(es, k, |init|);
      }
    }
  }

  /** `new Set(xs)`: the elements added one after another. */
  function FromElements(xs: seq<string>): (s: seq<string>)
    ensures Distinct(s)
    ensures forall y :: y in s <==> y in xs
  {
    if xs == [] then []
    else SetAdd(FromElements(xs[..|xs| - 1]), xs[|xs| - 1])
  }

  /** A map without repeated keys is rebuilt exactly from its own entries. */
  lemma {:induction false} FromEntriesOfMap(m: Entries)
    requires KeysDistinct(m)
    ensures FromEntries(m) == m
  {
    if m != [] {
      var init := m[..|m| - 1];
      FromEntriesOfMap(init);
      var last := m[|m| - 1];
      forall i | 0 <= i < |init|
        ensures init[i].0 != last.0
      {
        assert init[i] == m[i];
      }
      FrontAndLast(m);
    }
  }

  /** A set's elements, added again in their order, rebuild the set. */
  lemma {:induction false} FromElementsOfSet(s: seq<string>)
    requires Distinct(s)
    ensures FromElements(s) == s
  {
    if s != [] {
      var init := s[..|s| - 1];
      FromElementsOfSet(init);
      forall i | 0 <= i < |init|
        ensures init[i] != s[|s| - 1]
      {
        assert init[i] == s[i];
      }
      FrontAndLast(s);
    }
  }

  /**
   * What is kept in storage: the map's entries and the set's elements. A
   * missing field reads as an empty list.
   */
  datatype Stored = Stored(tutorials: Option<Entries>, problems: Option<seq<string>>)

  /** `saveProgress`: `Array.from` of the map's entries and of the set. */
  function Encode(userProgress: Entries, solved: seq<string>): Stored
  {
    Stored(Some(userProgress), Some(solved))
  }

  function OrEmpty<T>(o: Option<seq<T>>): seq<T>
  {
    match o
    case Some(xs) => xs
    case None => []
  }

  /** `loadProgress`: a map and a set rebuilt from what was stored. */
  function Decode(d: Stored): (r: (Entries, seq<string>))
    ensures KeysDistinct(r.0) && Distinct(r.1)
  {
    (FromEntries(OrEmpty(d.tutorials)), FromElements(OrEmpty(d.problems)))
  }

  /** Restoring what was saved gives back the same map and set, in the same order. */
  lemma DecodeEncode(userProgress: Entries, solved: seq<string>)
    requires KeysDistinct(userProgress) && Distinct(solved)
    ensures Decode(Encode(userProgress, solved)) == (userProgress, solved)
  {
    FromEntriesOfMap(userProgress);
    FromElementsOfSet(solved);
  }

  /** `Array.from(map.values()).filter(Boolean).length`. */
  function TrueCount(m: Entries): (n: nat)
    ensures n <= |m|
  {
    if m == [] then 0 else (if m[0].1 then 1 else 0) + TrueCount(m[1..])
  }

  lemma {:induction false} TrueCountUpdate(m: Entries, i: nat, e: (string, bool))
    requires i < |m|
    ensures TrueCount(m[i := e]) + (if m[i].1 then 1 else 0) == TrueCount(m) + (if e.1 then 1 else 0)
  {
    if i > 0 {
      TrueCountUpdate(m[1..], i - 1, e);
      assert m[i := e][1..] == m[1..][i - 1 := e];
    } else {
      assert m[0 := e][1..] == m[1..];
    }
  }

  lemma {:induction false} TrueCountAppend(m: Entries, e: (string, bool))
    ensures TrueCount(m + [e]) == TrueCount(m) + (if e.1 then 1 else 0)
  {
    if m != [] {
      TrueCountAppend(m[1..], e);
      assert (m + [e])[1..] == m[1..] + [e];
    }
  }

  /** Marking a tutorial complete raises the count by one, unless it was already complete. */
  lemma TrueCountAfterMark(m: Entries, k: string)
    ensures TrueCount(MapSet(m, k, true)) == TrueCount(m) + (if MapGet(m, k) == Some(true) then 0 else 1)
  {
    var i := KeyIndex(m, k);
    if i < |m| {
      TrueCountUpdate(m, i, (k, true));
    } else {
      TrueCountAppend(m, (k, true));
    }
  }

  /** `calculateStreak`: the number of solved problems, capped at 7. */
  function Streak(solved: nat): (r: nat)
    ensures r <= 7 && r <= solved
    ensures r == solved || r == 7
  {
    if solved < 7 then solved else 7
  }

  /**
   * `Math.round(done / total * 100)` on exact rationals: the integer nearest
   * to `100 * done / total`, halves rounded up.
   */
  function RoundedPercentage(done: nat, total: nat): (p: nat)
    requires total > 0
    ensures 2 * total * p <= 200 * done + total < 2 * total * (p + 1)
  {
    (200 * done + total) / (2 * total)
  }

  /** More completed items never lower the percentage. */
  lemma PercentageMonotone(done: nat, more: nat, total: nat)
    requires total > 0 && done <= more
    ensures RoundedPercentage(done, total) <= RoundedPercentage(more, total)
  {
    var p := RoundedPercentage(done, total);
    var q := RoundedPercentage(more, total);
    if q < p {
      assert 2 * total * (q + 1) <= 2 * total * p by {
        MulLeft(2 * total, q + 1, p);
      }
    }
  }

  lemma MulLeft(c: nat, a: nat, b: nat)
    requires a <= b
    ensures c * a <= c * b
  {
  }

  /** The percentage is at most 100 while no more items are done than exist. */
  lemma PercentageAtMostHundred(done: nat, total: nat)
    requires total > 0 && done <= total
    ensures RoundedPercentage(done, total) <= 100
  {
    var p := RoundedPercentage(done, total);
    if p > 100 {
      MulLeft(2 * total, 101, p);
    }
  }

  /** Everything a learner can complete: the four tutorials and the ten problems. */
  const TotalItems: nat := 14

  lemma TotalItemsCounted()
    ensures TotalItems == |TutorialIds| + |Problems|
  {
    ProblemIds();
  }

  /** The derived statistics (`lastActivity`, a clock reading, is not modelled). */
  datatype UserProgress = UserProgress(
    tutorialsCompleted: nat,
    problemsSolved: nat,
    totalProblems: nat,
    completionPercentage: nat,
    streak: nat)

  /** The progress a fresh user starts with. */
  const InitialProgress: UserProgress := UserProgress(0, 0, |Problems|, 0, 0)

  /** `updateUserProgress`: the statistics of a map and a set. */
  function Stats(userProgress: Entries, solved: seq<string>): UserProgress
  {
    var tutorialsCompleted := TrueCount(userProgress);
    var problemsSolved := |solved|;
    UserProgress(
      tutorialsCompleted,
      problemsSolved,
      |Problems|,
      RoundedPercentage(tutorialsCompleted + problemsSolved, TotalItems),
      Streak(problemsSolved))
  }

  /** Empty collections give the initial progress. */
  lemma StatsOfNothing()
    ensures Stats([], []) == InitialProgress
  {
  }

  /** Every entry of a distinct list lies in `universe`, so the list is no longer than it. */
  lemma {:induction false} DistinctWithin(xs: seq<string>, universe: seq<string>)
    requires Distinct(xs)
    requires forall i :: 0 <= i < |xs| ==> xs[i] in universe
    ensures |xs| <= |universe|
  {
    DistinctCardinality(xs);
    var sx := set x | x in xs;
    var su := set u | u in universe;
    SubsetCardinality(sx, su);
    SeqSetCardinality(universe);
  }

  lemma {:induction false} SubsetCardinality(a: set<string>, b: set<string>)
    requires a <= b
    ensures |a| <= |b|
  {
    if a != {} {
      var x :| x in a;
      SubsetCardinality(a - {x}, b - {x});
    }
  }

  lemma {:induction false} DistinctCardinality(xs: seq<string>)
    requires Distinct(xs)
    ensures |set x | x in xs| == |xs|
  {
    if xs != [] {
      var init := xs[..|xs| - 1];
      DistinctCardinality(init);
      assert (set x | x in xs) == (set x | x in init) + {xs[|xs| - 1]};
      forall i | 0 <= i < |init|
        ensures init[i] != xs[|xs| - 1]
      {
        assert init[i] == xs[i];
      }
    }
  }

  lemma {:induction false} SeqSetCardinality(xs: seq<string>)
    ensures |set x | x in xs| <= |xs|
  {
    if xs != [] {
      var init := xs[..|xs| - 1];
      SeqSetCardinality(init);
      assert (set x | x in xs) == (set x | x in init) + {xs[|xs| - 1]};
    }
  }

  /** The keys of a map, in order. */
  function Keys(m: Entries): (ks: seq<string>)
    ensures |ks| == |m|
    ensures forall i :: 0 <= i < |m| ==> ks[i] == m[i].0
  {
    if m == [] then [] else [m[0].0] + Keys(m[1..])
  }

  /**
   * While the map's keys are tutorial ids and the solved problems are
   * problem ids, the counts stay within the catalogue and the percentage
   * within 100.
   */
  lemma StatsWithinCatalogue(userProgress: Entries, solved: seq<string>)
    requires KeysDistinct(userProgress) && Distinct(solved)
    requires forall i :: 0 <= i < |userProgress| ==> userProgress[i].0 in TutorialIds
    requires forall i :: 0 <= i < |solved| ==> solved[i] in ProblemIdList
    ensures var s := Stats(userProgress, solved);
      && s.tutorialsCompleted <= |TutorialIds|
      && s.problemsSolved <= |Problems|
      && s.completionPercentage <= 100
      && s.streak <= 7
  {
    var ks := Keys(userProgress);
    DistinctWithin(ks, TutorialIds);
    DistinctWithin(solved, ProblemIdList);
    TotalItemsCounted();
    PercentageAtMostHundred(TrueCount(userProgress) + |solved|, TotalItems);
  }

  /** No statistic of `after` is below the same statistic of `before`. */
  predicate NoneLower(before: UserProgress, after: UserProgress)
  {
    && before.tutorialsCompleted <= after.tutorialsCompleted
    && before.problemsSolved <= after.problemsSolved
    && before.completionPercentage <= after.completionPercentage
    && before.streak <= after.streak
  }

  /** Marking a tutorial complete never lowers any statistic. */
  lemma MarkNeverLowers(userProgress: Entries, solved: seq<string>, tutorialId: string)
    ensures NoneLower(Stats(userProgress, solved), Stats(MapSet(userProgress, tutorialId, true), solved))
  {
    TrueCountAfterMark(userProgress, tutorialId);
    var t := MapSet(userProgress, tutorialId, true);
    PercentageMonotone(TrueCount(userProgress) + |solved|, TrueCount(t) + |solved|, TotalItems);
  }

  /** Recording a solved problem never lowers any statistic. */
  lemma SolveNeverLowers(userProgress: Entries, solved: seq<string>, problemId: string)
    ensures NoneLower(Stats(userProgress, solved), Stats(userProgress, SetAdd(solved, problemId)))
  {
    var s := SetAdd(solved, problemId);
    PercentageMonotone(TrueCount(userProgress) + |solved|, TrueCount(userProgress) + |s|, TotalItems);
  }
}
