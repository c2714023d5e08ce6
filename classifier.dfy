/**
 * `categorize_file`'s decision: a scan of the metadata title, then a scan of
 * the filename (only while the subcategory is still the sentinel), then the
 * override chain, whose first firing rule replaces whatever the scans chose.
 */
module Classifier {
  import opened Wrappers
  import opened Text
  import opened Taxonomy
  import opened Rules

  /** `sub.lower() in text.lower()`, the test both scan stages apply. */
  predicate Hits(text: string, sub: string) {
    Contains(ToLower(text), ToLower(sub))
  }

  /** The first subcategory of `subs`, in order, that hits `text`. */
  function FirstSubHit(text: string, subs: seq<string>): (r: Option<string>) {
    if subs == [] then None
    else if Hits(text, subs[0]) then Some(subs[0])
    else FirstSubHit(text, subs[1..])
  }

  /** The first (category, subcategory) of the table, in iteration order, that hits `text`. */
  function FirstHit(text: string, cats: Table): (r: Option<Label>) {
    if cats == [] then None
    else match FirstSubHit(text, cats[0].1)
      case Some(sub) => Some(Label(cats[0].0, sub))
      case None => FirstHit(text, cats[1..])
  }

  /** Stage 1: the scan of the title, which runs only when the document has one. */
  function TitleStage(title: Option<string>): (r: Option<Label>) {
    if title.Some? then FirstHit(title.value, Categories) else None
  }

  /** The decision `categorize_file` makes for a document with this title and filename. */
  function Classify(title: Option<string>, file: string): (l: Label) {
    match Override(file)
    case Some(o) => o
    case None =>
      match TitleStage(title)
      case Some(l) => l
      case None =>
        match FirstHit(file, Categories)
        case Some(l) => l
        case None => Default
  }

  // ---------------------------------------------------------------------------
  // First-match order of the scans

  predicate SubHits(subs: seq<string>, text: string, j: int) {
    0 <= j < |subs| && Hits(text, subs[j])
  }

  /** Subcategory `j` of category `i` hits `text`. */
  predicate EntryHits(cats: Table, text: string, i: int, j: int) {
    0 <= i < |cats| && SubHits(cats[i].1, text, j)
  }

  /** Entry (i, j) hits and no entry before it in iteration order does. */
  ghost predicate FirstHitAt(cats: Table, text: string, i: int, j: int) {
    EntryHits(cats, text, i, j) &&
    (forall i', j' :: 0 <= i' < i ==> !EntryHits(cats, text, i', j')) &&
    (forall j' :: 0 <= j' < j ==> !EntryHits(cats, text, i, j'))
  }

  lemma {:induction false} FirstSubHitIsEarliest(text: string, subs: seq<string>)
    ensures FirstSubHit(text, subs).Some? ==>
      exists j :: SubHits(subs, text, j) && subs[j] == FirstSubHit(text, subs).value &&
        forall m :: 0 <= m < j ==> !SubHits(subs, text, m)
    ensures FirstSubHit(text, subs).None? <==> forall m :: !SubHits(subs, text, m)
  {
    if subs != [] {
      FirstSubHitIsEarliest(text, subs[1..]);
      if !Hits(text, subs[0]) {
        if FirstSubHit(text, subs[1..]).Some? {
          var j :| SubHits(subs[1..], text, j) && subs[1..][j] == FirstSubHit(text, subs[1..]).value &&
            forall m :: 0 <= m < j ==> !SubHits(subs[1..], text, m);
          assert SubHits(subs, text, j + 1);
          forall m | 0 <= m < j + 1 ensures !SubHits(subs, text, m) {
            if m > 0 { assert !SubHits(subs[1..], text, m - 1); }
          }
        } else {
          forall m ensures !SubHits(subs, text, m) {
            if 0 < m < |subs| { assert !SubHits(subs[1..], text, m - 1); }
          }
        }
      } else {
        assert SubHits(subs, text, 0);
      }
    }
  }

  /**
   * The scan selects the earliest hitting entry in iteration order (earlier
   * category first, then earlier subcategory), and finds nothing exactly
   * when no entry hits.
   */
  lemma {:induction false} FirstHitIsEarliest(text: string, cats: Table)
    ensures FirstHit(text, cats).Some? ==>
      exists i, j :: FirstHitAt(cats, text, i, j) && EntryAt(cats, i, j, FirstHit(text, cats).value)
    ensures FirstHit(text, cats).None? <==> forall i, j :: !EntryHits(cats, text, i, j)
  {
    if cats != [] {
      FirstSubHitIsEarliest(text, cats[0].1);
      FirstHitIsEarliest(text, cats[1..]);
      if FirstSubHit(text, cats[0].1).Some? {
        var j :| SubHits(cats[0].1, text, j) && cats[0].1[j] == FirstSubHit(text, cats[0].1).value &&
          forall m :: 0 <= m < j ==> !SubHits(cats[0].1, text, m);
        assert FirstHitAt(cats, text, 0, j);
        assert EntryAt(cats, 0, j, FirstHit(text, cats).value);
      } else {
        forall i, j | 0 < i < |cats| ensures EntryHits(cats, text, i, j) == EntryHits(cats[1..], text, i - 1, j) {
          assert cats[1..][i - 1] == cats[i];
        }
        if FirstHit(text, cats[1..]).Some? {
          var i, j :| FirstHitAt(cats[1..], text, i, j) && EntryAt(cats[1..], i, j, FirstHit(text, cats[1..]).value);
          assert FirstHitAt(cats, text, i + 1, j) by {
            forall i', j' | 0 <= i' < i + 1 ensures !EntryHits(cats, text, i', j') {
              if i' > 0 { assert !EntryHits(cats[1..], text, i' - 1, j'); }
            }
          }
          assert EntryAt(cats, i + 1, j, FirstHit(text, cats).value);
        } else {
          forall i, j ensures !EntryHits(cats, text, i, j) {
            if 0 < i < |cats| { assert !EntryHits(cats[1..], text, i - 1, j); }
          }
        }
      }
    }
  }

  /** Whatever a scan selects is an entry of the table it scanned. */
  lemma FirstHitInTable(text: string, cats: Table)
    requires FirstHit(text, cats).Some?
    ensures InTable(cats, FirstHit(text, cats).value)
  {
    FirstHitIsEarliest(text, cats);
  }

  /** A scan of `CATEGORIES` never selects the sentinel subcategory. */
  lemma FirstHitNotGeneral(text: string)
    requires FirstHit(text, Categories).Some?
    ensures FirstHit(text, Categories).value.subcategory != General
  {
    FirstHitInTable(text, Categories);
    var i, j :| EntryAt(Categories, i, j, FirstHit(text, Categories).value);
    SubcategoryFacts(i, j);
  }

  // ---------------------------------------------------------------------------
  // Properties of the decision

  /**
   * The classifier returns the default or a taxonomy entry, so its category
   * is always a key of `file_counts` and the increment at line 112 cannot
   * miss.
   */
  lemma ClassifyAdmissible(title: Option<string>, file: string)
    ensures Admissible(Classify(title, file))
    ensures Classify(title, file).category in CategoryNames(Categories)
  {
    OverrideAdmissible(file);
    if title.Some? && FirstHit(title.value, Categories).Some? {
      FirstHitInTable(title.value, Categories);
    }
    if FirstHit(file, Categories).Some? {
      FirstHitInTable(file, Categories);
    }
    AdmissibleCategoryIsName(Classify(title, file));
  }

  /** The first firing override wins, whatever the title says. */
  lemma OverrideDominates(title: Option<string>, file: string)
    requires Override(file).Some?
    ensures Classify(title, file) == Override(file).value == ExpectedCategory(file)
  {
  }

  /**
   * Without an override, a title hit decides; the filename scan decides only
   * when the title scan found nothing; with neither, the default stays.
   */
  lemma ScanStagesDecide(title: Option<string>, file: string)
    requires Override(file).None?
    ensures TitleStage(title).Some? ==> Classify(title, file) == TitleStage(title).value
    ensures TitleStage(title).None? && FirstHit(file, Categories).Some? ==>
      Classify(title, file) == FirstHit(file, Categories).value
    ensures TitleStage(title).None? && FirstHit(file, Categories).None? ==> Classify(title, file) == Default
  {
  }

  /**
   * A file is counted correct exactly when an override fires, or when no
   * override fires and neither scan found anything.
   */
  lemma CountedCorrectIff(title: Option<string>, file: string)
    ensures Classify(title, file) == ExpectedCategory(file) <==>
      Override(file).Some? || (TitleStage(title).None? && FirstHit(file, Categories).None?)
  {
    if Override(file).None? {
      if TitleStage(title).Some? {
        FirstHitNotGeneral(title.value);
      } else if FirstHit(file, Categories).Some? {
        FirstHitNotGeneral(file);
      }
    }
  }

  // ---------------------------------------------------------------------------
  // The stages as the source runs them

  /**
   * One scan stage: the nested loops with `break` over `CATEGORIES`. Starting
   * from the sentinel subcategory, it leaves the first hitting entry in
   * (category, subcategory), or leaves both unchanged when nothing hits.
   */
  method ScanStage(text: string, category0: string, subcategory0: string)
    returns (category: string, subcategory: string)
    requires subcategory0 == General
    ensures FirstHit(text, Categories).Some? ==>
      Label(category, subcategory) == FirstHit(text, Categories).value
    ensures FirstHit(text, Categories).None? ==> category == category0 && subcategory == subcategory0
  {
    category, subcategory := category0, subcategory0;
    var i := 0;
    while i < |Categories|
      invariant 0 <= i <= |Categories|
      invariant category == category0 && subcategory == General
      invariant FirstHit(text, Categories) == FirstHit(text, Categories[i..])
    {
      var cat, subcategories := Categories[i].0, Categories[i].1;
      var j := 0;
      while j < |subcategories|
        invariant 0 <= j <= |subcategories|
        invariant category == category0 && subcategory == General
        invariant FirstSubHit(text, subcategories) == FirstSubHit(text, subcategories[j..])
      {
        if Contains(ToLower(text), ToLower(subcategories[j])) {
          SubcategoryFacts(i, j);
          category, subcategory := cat, subcategories[j];
          break;
        }
        assert subcategories[j..][1..] == subcategories[j + 1..];
        j := j + 1;
      }
      if subcategory != General {
        assert FirstHit(text, Categories[i..]) == Some(Label(category, subcategory));
        break;
      }
      assert FirstSubHit(text, subcategories) == None;
      assert Categories[i..][1..] == Categories[i + 1..];
      i := i + 1;
    }
  }

  /** The stages of `categorize_file` (lines 47-93), run in order on local variables. */
  method Categorize(title: Option<string>, file: string) returns (l: Label)
    ensures l == Classify(title, file)
  {
    var category, subcategory := Others, General;
    if title.Some? {
      category, subcategory := ScanStage(title.value, category, subcategory);
      if FirstHit(title.value, Categories).Some? {
        FirstHitNotGeneral(title.value);
      }
    }
    if subcategory == General {
      category, subcategory := ScanStage(file, category, subcategory);
    }
    match Override(file) {
      case Some(o) =>
        category, subcategory := o.category, o.subcategory;
      case None =>
    }
    l := Label(category, subcategory);
  }
}

/** Worked examples of the decision on concrete filenames. */
module ClassifierExamples {
  import opened Wrappers
  import opened Text
  import opened Taxonomy
  import opened Rules
  import opened Classifier

  predicate NoUpper(f: string) {
    forall c | c in f :: !IsUpper(c)
  }

  /**
   * A lower-case filename without spaces and without the letters `u`, `y`
   * and `q` triggers no phrase rule: every phrase of the chain has one of
   * those characters.
   */
  lemma NoOverrideWithoutPhraseChars(f: string)
    requires NoUpper(f) && ' ' !in f && 'u' !in f && 'y' !in f && 'q' !in f
    ensures Override(f) == None && ExpectedCategory(f) == Default
  {
    ToLowerOfLower(f);
    NotContainsMissingChar(f, "guest", 'u');
    NotContainsMissingChar(f, "network security", ' ');
    NotContainsMissingChar(f, "neural network", ' ');
    NotContainsMissingChar(f, "cryptography", 'y');
    NotContainsMissingChar(f, "machine learning", ' ');
    NotContainsMissingChar(f, "calculus", 'u');
    NotContainsMissingChar(f, "nosql", 'q');
  }

  /**
   * A lower-case text with a `c` but without `y` or `j` is scanned to the
   * Programming subcategory "C": "Python" and "Java" miss, and "C" is
   * tested before any other category.
   */
  lemma ScanMeetsC(f: string)
    requires NoUpper(f) && 'c' in f && 'y' !in f && 'j' !in f
    ensures FirstHit(f, Categories) == Some(Label("Programming", "C"))
  {
    ToLowerOfLower(f);
    assert ToLower("Python") == "python";
    assert ToLower("Java") == "java";
    assert ToLower("C") == "c";
    NotContainsMissingChar(f, "python", 'y');
    NotContainsMissingChar(f, "java", 'j');
    var k :| 0 <= k < |f| && f[k] == 'c';
    assert f[k..k + 1] == "c";
    ContainsAt(f, "c", k);
    var subs := Categories[0].1;
    assert subs == ["Python", "Java", "C"];
    assert subs[1..] == ["Java", "C"];
    assert subs[1..][1..] == ["C"];
    assert FirstSubHit(f, subs[1..][1..]) == Some("C");
    assert FirstSubHit(f, subs[1..]) == Some("C");
  }

  /**
   * An underscore-separated name never triggers the space-separated phrase
   * "machine learning"; the filename scan then meets the subcategory "C"
   * (the `c` of "machine") before any AI subcategory, and the file is not
   * counted correct.
   */
  lemma IntroToMachineLearning()
    ensures Classify(None, "intro_to_machine_learning.pdf") == Label("Programming", "C")
    ensures ExpectedCategory("intro_to_machine_learning.pdf") == Default
  {
    var f := "intro_to_machine_learning.pdf";
    IntroLowerCase(f);
    IntroLacksSpaceAndU(f);
    IntroLacksYQJ(f);
    NoOverrideWithoutPhraseChars(f);
    ScanMeetsC(f);
  }

  /** `intro_to_machine_learning.pdf` is lower case and has a `c` (at index 11). */
  lemma IntroLowerCase(f: string)
    requires f == "intro_to_machine_learning.pdf"
    ensures NoUpper(f) && 'c' in f
  {
    assert f[11] == 'c';
  }

  /** `intro_to_machine_learning.pdf` has no space and no `u`. */
  lemma IntroLacksSpaceAndU(f: string)
    requires f == "intro_to_machine_learning.pdf"
    ensures ' ' !in f && 'u' !in f
  {
  }

  /** `intro_to_machine_learning.pdf` has no `y`, `q` or `j`. */
  lemma IntroLacksYQJ(f: string)
    requires f == "intro_to_machine_learning.pdf"
    ensures 'y' !in f && 'q' !in f && 'j' !in f
  {
  }

  /**
   * "linear" together with "guest" selects linear algebra through the
   * override, even when the title names another subcategory; the file is
   * counted correct.
   */
  lemma GuestLectureLinear()
    ensures Classify(Some("SQL"), "guest_lecture_linear.pdf") == Label("Math", "Linear_Algebra")
    ensures ExpectedCategory("guest_lecture_linear.pdf") == Label("Math", "Linear_Algebra")
  {
    var f := "guest_lecture_linear.pdf";
    ToLowerOfLower(f);
    assert f[14..20] == "linear";
    ContainsAt(f, "linear", 14);
    assert f[..5] == "guest";
    ContainsAt(f, "guest", 0);
  }
}
