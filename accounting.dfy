/**
 * The module-level counters of `organize_and_report.py` (lines 18-20) and
 * their per-file update in `categorize_file` (lines 99-100, 110-113).
 * The worker threads are modelled as one sequential drain of the file list;
 * the metadata reader and the outcome of the move are parameters.
 */
module Accounting {
  import opened Wrappers
  import opened Taxonomy
  import opened Rules
  import opened Classifier
  import opened Paths

  /** A snapshot of the counters: `file_counts`, `total_file_count`, `correctly_categorized_files`. */
  datatype Tally = Tally(counts: map<string, int>, total: int, correct: int)

  /** The keys of `file_counts`: the taxonomy's categories. */
  ghost predicate KeysOk(t: Tally) {
    t.counts.Keys == set c | c in CategoryNames(Categories)
  }

  /** Every category has a counter. */
  lemma NamesAreKeys(t: Tally)
    requires KeysOk(t)
    ensures forall n | n in CategoryNames(Categories) :: n in t.counts
  {
  }

  /** The counters when the program starts: every category at zero, both totals at zero. */
  function Initial(): (t: Tally)
    ensures KeysOk(t)
  {
    Tally(map c | c in CategoryNames(Categories) :: 0, 0, 0)
  }

  /** `sum(counts[n] for n in names)`. */
  function SumCounts(counts: map<string, int>, names: seq<string>): (sum: int)
    requires forall n | n in names :: n in counts
  {
    if names == [] then 0 else counts[names[0]] + SumCounts(counts, names[1..])
  }

  /** The category counts add up to the total: `sum(file_counts.values()) == total_file_count`. */
  ghost predicate Balanced(t: Tally) {
    KeysOk(t) && SumCounts(t.counts, CategoryNames(Categories)) == t.total
  }

  /**
   * The counter update for one outcome: the correct count rises when the
   * decision matched the expected one (line 100, before the move); the
   * category's count and the total rise only when the folder creation and
   * the move succeeded (lines 106-113).
   */
  function Record(t: Tally, category: string, wasCorrect: bool, moved: bool): (r: Tally)
    requires category in t.counts
    ensures r.counts.Keys == t.counts.Keys
  {
    var correct := if wasCorrect then t.correct + 1 else t.correct;
    if moved then Tally(t.counts[category := t.counts[category] + 1], t.total + 1, correct)
    else Tally(t.counts, t.total, correct)
  }

  /** What `categorize_file` does to the counters for one file. */
  function Step(t: Tally, file: string, title: Option<string>, moved: bool): (r: Tally)
    requires KeysOk(t)
    ensures KeysOk(r)
  {
    ClassifyAdmissible(title, file);
    var l := Classify(title, file);
    Record(t, l.category, l == ExpectedCategory(file), moved)
  }

  /** Processing the files one after another; `titleOf` is the metadata reader, `movedOf` the outcome of the move. */
  function Run(t: Tally, files: seq<string>, titleOf: string -> Option<string>, movedOf: string -> bool): (r: Tally)
    requires KeysOk(t)
    ensures KeysOk(r)
    decreases |files|
  {
    if files == [] then t
    else Run(Step(t, files[0], titleOf(files[0]), movedOf(files[0])), files[1..], titleOf, movedOf)
  }

  /** The number of files whose move succeeds. */
  function MovedCount(files: seq<string>, movedOf: string -> bool): (n: nat)
    ensures n <= |files|
  {
    if files == [] then 0 else (if movedOf(files[0]) then 1 else 0) + MovedCount(files[1..], movedOf)
  }

  /** The number of files whose decision equals `get_expected_category` (line 99). */
  function CorrectCount(files: seq<string>, titleOf: string -> Option<string>): (n: nat)
    ensures n <= |files|
  {
    if files == [] then 0
    else
      var hit := if Classify(titleOf(files[0]), files[0]) == ExpectedCategory(files[0]) then 1 else 0;
      hit + CorrectCount(files[1..], titleOf)
  }

  /** The number of moved files whose decision has category `c` (line 112). */
  function MovedInto(files: seq<string>, titleOf: string -> Option<string>, movedOf: string -> bool, c: string): (n: nat)
    ensures n <= MovedCount(files, movedOf)
  {
    if files == [] then 0
    else
      var hit := if movedOf(files[0]) && Classify(titleOf(files[0]), files[0]).category == c then 1 else 0;
      hit + MovedInto(files[1..], titleOf, movedOf, c)
  }

  // ---------------------------------------------------------------------------
  // Sums

  lemma {:induction false} SumFrame(counts: map<string, int>, names: seq<string>, c: string, v: int)
    requires forall n | n in names :: n in counts
    requires c !in names
    ensures SumCounts(counts[c := v], names) == SumCounts(counts, names)
  {
    if names != [] {
      SumFrame(counts, names[1..], c, v);
    }
  }

  /** Raising one listed count by one raises the sum by exactly one. */
  lemma {:induction false} SumIncrement(counts: map<string, int>, names: seq<string>, c: string)
    requires forall n | n in names :: n in counts
    requires Distinct(names) && c in names
    ensures SumCounts(counts[c := counts[c] + 1], names) == SumCounts(counts, names) + 1
  {
    var tail := names[1..];
    assert Distinct(tail) by {
      forall i, j | 0 <= i < j < |tail| ensures tail[i] != tail[j] {
        assert tail[i] == names[i + 1] && tail[j] == names[j + 1];
      }
    }
    if names[0] == c {
      assert c !in tail by {
        forall k | 0 <= k < |tail| ensures tail[k] != c {
          assert tail[k] == names[k + 1];
        }
      }
      SumFrame(counts, tail, c, counts[c] + 1);
    } else {
      SumIncrement(counts, tail, c);
    }
  }

  lemma {:induction false} SumOfZeros(counts: map<string, int>, names: seq<string>)
    requires forall n | n in names :: n in counts && counts[n] == 0
    ensures SumCounts(counts, names) == 0
  {
    if names != [] {
      SumOfZeros(counts, names[1..]);
    }
  }

  // ---------------------------------------------------------------------------
  // Properties of the accounting

  /** The counters start balanced: all zero. */
  lemma InitialBalanced()
    ensures Balanced(Initial())
  {
    SumOfZeros(Initial().counts, CategoryNames(Categories));
  }

  /**
   * One outcome raises its category's count and the total by exactly one
   * when the move succeeded and by nothing when it failed, changes no other
   * category's count, and raises the correct count exactly when the
   * decision was correct, whether or not the move succeeded.
   */
  lemma RecordChangesOneCount(t: Tally, category: string, wasCorrect: bool, moved: bool)
    requires KeysOk(t) && category in t.counts
    ensures var r := Record(t, category, wasCorrect, moved);
      && r.total == t.total + (if moved then 1 else 0)
      && r.counts[category] == t.counts[category] + (if moved then 1 else 0)
      && (forall c | c in t.counts && c != category :: r.counts[c] == t.counts[c])
      && r.correct == t.correct + (if wasCorrect then 1 else 0)
  {
  }

  /** Recording an outcome for a taxonomy category keeps the counts adding up to the total. */
  lemma RecordPreservesBalance(t: Tally, category: string, wasCorrect: bool, moved: bool)
    requires Balanced(t) && category in CategoryNames(Categories)
    ensures Balanced(Record(t, category, wasCorrect, moved))
  {
    var names := CategoryNames(Categories);
    CategoryNamesDistinct();
    assert forall n | n in names :: n in t.counts;
    RecordSum(t, names, category, wasCorrect, moved);
  }

  /** Over any distinct list of categories, a recorded outcome raises the sum of counts by one exactly when the move succeeded. */
  lemma RecordSum(t: Tally, names: seq<string>, category: string, wasCorrect: bool, moved: bool)
    requires forall n | n in names :: n in t.counts
    requires Distinct(names) && category in names
    ensures SumCounts(Record(t, category, wasCorrect, moved).counts, names) ==
      SumCounts(t.counts, names) + (if moved then 1 else 0)
  {
    if moved {
      SumIncrement(t.counts, names, category);
    }
  }

  /** A processed file, moved or not, keeps the counts adding up to the total. */
  lemma StepPreservesBalance(t: Tally, file: string, title: Option<string>, moved: bool)
    requires Balanced(t)
    ensures Balanced(Step(t, file, title, moved))
  {
    ClassifyAdmissible(title, file);
    var l := Classify(title, file);
    RecordPreservesBalance(t, l.category, l == ExpectedCategory(file), moved);
  }

  /** Any sequence of successful and failed files keeps the counts adding up to the total. */
  lemma {:induction false} RunPreservesBalance(t: Tally, files: seq<string>,
                                               titleOf: string -> Option<string>, movedOf: string -> bool)
    requires Balanced(t)
    ensures Balanced(Run(t, files, titleOf, movedOf))
    decreases |files|
  {
    if files != [] {
      StepPreservesBalance(t, files[0], titleOf(files[0]), movedOf(files[0]));
      RunPreservesBalance(Step(t, files[0], titleOf(files[0]), movedOf(files[0])), files[1..], titleOf, movedOf);
    }
  }

  /**
   * Over a run, the total rises by the number of moved files and the correct
   * count by the number of files decided as expected; hence the correct count
   * rises by at most the number of files.
   */
  lemma {:induction false} RunTotals(t: Tally, files: seq<string>,
                                     titleOf: string -> Option<string>, movedOf: string -> bool)
    requires KeysOk(t)
    ensures Run(t, files, titleOf, movedOf).total == t.total + MovedCount(files, movedOf)
    ensures Run(t, files, titleOf, movedOf).correct == t.correct + CorrectCount(files, titleOf)
    ensures t.correct <= Run(t, files, titleOf, movedOf).correct <= t.correct + |files|
    decreases |files|
  {
    if files != [] {
      var s := Step(t, files[0], titleOf(files[0]), movedOf(files[0]));
      RunTotals(s, files[1..], titleOf, movedOf);
    }
  }

  /** Over a run, the count of category `c` rises by the number of moved files decided into `c`. */
  lemma {:induction false} RunCategoryCount(t: Tally, files: seq<string>,
                                            titleOf: string -> Option<string>, movedOf: string -> bool, c: string)
    requires KeysOk(t) && c in t.counts
    ensures Run(t, files, titleOf, movedOf).counts[c] == t.counts[c] + MovedInto(files, titleOf, movedOf, c)
    decreases |files|
  {
    if files != [] {
      StepCategoryCount(t, files[0], titleOf(files[0]), movedOf(files[0]), c);
      var s := Step(t, files[0], titleOf(files[0]), movedOf(files[0]));
      RunCategoryCount(s, files[1..], titleOf, movedOf, c);
    }
  }

  /** One file raises the count of `c` by one exactly when it was moved and decided into `c`. */
  lemma StepCategoryCount(t: Tally, file: string, title: Option<string>, moved: bool, c: string)
    requires KeysOk(t) && c in t.counts
    ensures Step(t, file, title, moved).counts[c] ==
      t.counts[c] + (if moved && Classify(title, file).category == c then 1 else 0)
  {
    ClassifyAdmissible(title, file);
  }

  /**
   * From the initial counters, the counts add up to the total after any run,
   * and the correct count exceeds the total by at most the number of files
   * whose move failed.
   */
  lemma RunFromStart(files: seq<string>, titleOf: string -> Option<string>, movedOf: string -> bool)
    ensures Balanced(Run(Initial(), files, titleOf, movedOf))
    ensures Run(Initial(), files, titleOf, movedOf).correct <=
      Run(Initial(), files, titleOf, movedOf).total + (|files| - MovedCount(files, movedOf))
  {
    InitialBalanced();
    RunPreservesBalance(Initial(), files, titleOf, movedOf);
    RunTotals(Initial(), files, titleOf, movedOf);
  }

  /** A metadata reader that finds no title in any file. */
  function NoTitle(file: string): (r: Option<string>) {
    None
  }

  /** A run in which only the move of `calculus2.pdf` succeeds. */
  function OnlySecondMoved(file: string): (r: bool) {
    file == "calculus2.pdf"
  }

  /**
   * Two files the override chain decides, the first of whose moves fails:
   * both are counted correct, but only one is counted in the total.
   */
  lemma OverriddenPairOneMoved(f1: string, f2: string, titleOf: string -> Option<string>, movedOf: string -> bool)
    requires Override(f1).Some? && Override(f2).Some?
    requires !movedOf(f1) && movedOf(f2)
    ensures Run(Initial(), [f1, f2], titleOf, movedOf).total == 1
    ensures Run(Initial(), [f1, f2], titleOf, movedOf).correct == 2
  {
    var files := [f1, f2];
    assert files[1..] == [f2] && files[1..][1..] == [];
    OverrideDominates(titleOf(f1), f1);
    OverrideDominates(titleOf(f2), f2);
    RunTotals(Initial(), files, titleOf, movedOf);
  }

  /**
   * `correct <= total` does not hold in general: a file the override chain
   * decides is counted correct before its move, so when the move of
   * `calculus.pdf` fails and that of `calculus2.pdf` succeeds, the correct
   * count is twice the total, and the total is not zero, so a report is written.
   */
  lemma CorrectCanExceedTotal()
    ensures Run(Initial(), ["calculus.pdf", "calculus2.pdf"], NoTitle, OnlySecondMoved).total == 1
    ensures Run(Initial(), ["calculus.pdf", "calculus2.pdf"], NoTitle, OnlySecondMoved).correct == 2
  {
    CalculusOverride("calculus.pdf");
    CalculusOverride("calculus2.pdf");
    OverriddenPairOneMoved("calculus.pdf", "calculus2.pdf", NoTitle, OnlySecondMoved);
  }

  lemma CalculusOverride(f: string)
    requires f == "calculus.pdf" || f == "calculus2.pdf"
    ensures Override(f) == Some(Label("Math", "Calculus"))
  {
    assert f[..8] == "calculus";
    CalculusRuleFires(f);
  }

  /**
   * A lower-case name that starts with "calculus" and has no `n`, `y` or `m`
   * is decided by the "calculus" rule: the earlier phrases all need one of
   * those letters.
   */
  lemma CalculusRuleFires(f: string)
    requires forall c | c in f :: !Text.IsUpper(c)
    requires 'n' !in f && 'y' !in f && 'm' !in f && Text.IsPrefix("calculus", f)
    ensures Override(f) == Some(Label("Math", "Calculus"))
  {
    Text.ToLowerOfLower(f);
    Text.NotContainsMissingChar(f, "linear", 'n');
    Text.NotContainsMissingChar(f, "network security", 'n');
    Text.NotContainsMissingChar(f, "neural network", 'n');
    Text.NotContainsMissingChar(f, "cryptography", 'y');
    Text.NotContainsMissingChar(f, "machine learning", 'm');
    Text.ContainsAt(f, "calculus", 0);
  }

  // ---------------------------------------------------------------------------
  // The counters as mutable state

  /** The module-level counters, updated in place by each processed file. */
  class Organizer {
    var fileCounts: map<string, int>
    var totalFileCount: int
    var correctlyCategorizedFiles: int

    function Snapshot(): (t: Tally)
      reads this
    {
      Tally(fileCounts, totalFileCount, correctlyCategorizedFiles)
    }

    ghost predicate Valid()
      reads this
    {
      Balanced(Snapshot())
    }

    /** Lines 18-20: every category count at zero, both totals at zero. */
    constructor ()
      ensures Valid()
      ensures Snapshot() == Initial()
    {
      fileCounts := map c | c in CategoryNames(Categories) :: 0;
      totalFileCount := 0;
      correctlyCategorizedFiles := 0;
      InitialBalanced();
    }

    /**
     * The counter updates of one file (lines 99-100 and 110-113): the correct
     * count when the decision was correct, then, if the move succeeded, the
     * category's count and the total.
     */
    method RecordOutcome(category: string, wasCorrect: bool, moved: bool)
      requires category in fileCounts
      modifies this
      ensures Snapshot() == Record(old(Snapshot()), category, wasCorrect, moved)
    {
      if wasCorrect {
        correctlyCategorizedFiles := correctlyCategorizedFiles + 1;
      }
      if moved {
        fileCounts := fileCounts[category := fileCounts[category] + 1];
        totalFileCount := totalFileCount + 1;
      }
    }

    /**
     * `categorize_file` for one file: decides its label, computes its
     * destination, and records whether the label matches
     * `get_expected_category` and whether the move succeeded.
     */
    method CategorizeFile(root: string, file: string, title: Option<string>, moved: bool)
      returns (decision: Label, dest: string)
      requires Valid()
      modifies this
      ensures Valid()
      ensures decision == Classify(title, file)
      ensures dest == DestPath(root, decision, file)
      ensures Snapshot() == Step(old(Snapshot()), file, title, moved)
    {
      decision := Categorize(title, file);
      ClassifyAdmissible(title, file);
      var expected := ExpectedCategory(file);
      var wasCorrect := decision.category == expected.category && decision.subcategory == expected.subcategory;
      var categoryDir := Join(root, decision.category);
      if decision.subcategory != General {
        categoryDir := Join(categoryDir, decision.subcategory);
      }
      dest := Join(categoryDir, Basename(file));
      StepPreservesBalance(Snapshot(), file, title, moved);
      RecordOutcome(decision.category, wasCorrect, moved);
    }

    /** The workers' loop, run sequentially: every file in order, failures included. */
    method Drain(root: string, files: seq<string>, titleOf: string -> Option<string>, movedOf: string -> bool)
      requires Valid()
      modifies this
      ensures Valid()
      ensures Snapshot() == Run(old(Snapshot()), files, titleOf, movedOf)
    {
      var k := 0;
      while k < |files|
        invariant 0 <= k <= |files|
        invariant Valid()
        invariant Run(old(Snapshot()), files, titleOf, movedOf) == Run(Snapshot(), files[k..], titleOf, movedOf)
      {
        assert files[k..][1..] == files[k + 1..];
        var _, _ := CategorizeFile(root, files[k], titleOf(files[k]), movedOf(files[k]));
        k := k + 1;
      }
    }
  }
}
