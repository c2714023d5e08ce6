/**
 * Where files go: POSIX `os.path.join` and `os.path.basename`, the
 * destination computed by `categorize_file` (lines 103-107), the directories
 * `setup_folder_structure` creates, and the `.pdf` filter of `organize_pdfs`.
 */
module Paths {
  import opened Text
  import opened Taxonomy
  import opened Classifier

  /** `os.path.join(a, b)` on POSIX. */
  function Join(a: string, b: string): (p: string) {
    if |b| > 0 && b[0] == '/' then b
    else if a == [] || a[|a| - 1] == '/' then a + b
    else a + "/" + b
  }

  /** Joining a relative component onto a path without a trailing `/` inserts one `/`. */
  lemma JoinPlain(a: string, b: string)
    requires a != [] && a[|a| - 1] != '/'
    requires '/' !in b
    ensures Join(a, b) == a + "/" + b
  {
    if |b| > 0 { assert b[0] in b; }
  }

  /** `os.path.basename(p)`: what follows the last `/`, or all of `p` when it has none. */
  function Basename(p: string): (r: string)
    ensures '/' !in r
    ensures EndsWith(p, r)
    ensures |r| < |p| ==> p[|p| - |r| - 1] == '/'
    decreases |p|
  {
    if p == [] || p[|p| - 1] == '/' then []
    else Basename(p[..|p| - 1]) + [p[|p| - 1]]
  }

  /** The directory a decision sends a file to (lines 103-105). */
  function CategoryDir(root: string, l: Label): (dir: string) {
    var categoryDir := Join(root, l.category);
    if l.subcategory != General then Join(categoryDir, l.subcategory) else categoryDir
  }

  /** `dest_path` (line 107). */
  function DestPath(root: string, l: Label, file: string): (dest: string) {
    Join(CategoryDir(root, l), Basename(file))
  }

  /** With a root that does not end in `/`, the destination is the plain `/`-separated path. */
  lemma DestPathShape(root: string, l: Label, file: string)
    requires root != [] && root[|root| - 1] != '/'
    requires l.category != [] && '/' !in l.category && l.subcategory != [] && '/' !in l.subcategory
    ensures DestPath(root, l, file) ==
      root + "/" + l.category + (if l.subcategory == General then "" else "/" + l.subcategory) + "/" + Basename(file)
  {
    JoinPlain(root, l.category);
    var c := Join(root, l.category);
    LastCharOf(root + "/", l.category);
    if l.subcategory != General {
      JoinPlain(c, l.subcategory);
      LastCharOf(c + "/", l.subcategory);
      JoinPlain(Join(c, l.subcategory), Basename(file));
    } else {
      JoinPlain(c, Basename(file));
    }
  }

  lemma LastCharOf(prefix: string, name: string)
    requires name != [] && '/' !in name
    ensures (prefix + name) != [] && (prefix + name)[|prefix + name| - 1] != '/'
  {
    assert (prefix + name)[|prefix + name| - 1] == name[|name| - 1];
    assert name[|name| - 1] in name;
  }

  /** The subcategory folders of one category folder, in order. */
  function SubDirs(dir: string, subs: seq<string>): (dirs: seq<string>) {
    if subs == [] then [] else [Join(dir, subs[0])] + SubDirs(dir, subs[1..])
  }

  lemma {:induction false} SubDirsIff(dir: string, subs: seq<string>, d: string)
    ensures |SubDirs(dir, subs)| == |subs|
    ensures d in SubDirs(dir, subs) <==> exists k :: 0 <= k < |subs| && d == Join(dir, subs[k])
  {
    if subs != [] {
      SubDirsIff(dir, subs[1..], d);
      if exists k :: 0 <= k < |subs| && d == Join(dir, subs[k]) {
        var k :| 0 <= k < |subs| && d == Join(dir, subs[k]);
        if k > 0 { assert d == Join(dir, subs[1..][k - 1]); }
      }
      if d in SubDirs(dir, subs[1..]) {
        var k :| 0 <= k < |subs[1..]| && d == Join(dir, subs[1..][k]);
        assert d == Join(dir, subs[k + 1]);
      }
    }
  }

  /** The folders created for one category: its own folder, then one per subcategory. */
  function CategoryFolders(root: string, entry: (string, seq<string>)): (dirs: seq<string>) {
    var categoryPath := Join(root, entry.0);
    [categoryPath] + SubDirs(categoryPath, entry.1)
  }

  /** The folders `setup_folder_structure` creates, in creation order. */
  function FolderPlan(root: string, cats: Table): (dirs: seq<string>)
    decreases |cats|
  {
    if cats == [] then []
    else FolderPlan(root, cats[..|cats| - 1]) + CategoryFolders(root, cats[|cats| - 1])
  }

  /** `d` is the folder of category `i` (j = -1) or of its subcategory `j`. */
  predicate PlannedAt(root: string, cats: Table, i: int, j: int, d: string) {
    0 <= i < |cats| &&
    ((j == -1 && d == Join(root, cats[i].0)) ||
     (0 <= j < |cats[i].1| && d == Join(Join(root, cats[i].0), cats[i].1[j])))
  }

  /** Every planned folder is a category folder or one of its subcategory folders. */
  lemma {:induction false} FolderPlanSound(root: string, cats: Table, d: string)
    requires d in FolderPlan(root, cats)
    ensures exists i, j :: PlannedAt(root, cats, i, j, d)
    decreases |cats|
  {
    var n := |cats| - 1;
    var init := cats[..n];
    var categoryPath := Join(root, cats[n].0);
    if d in FolderPlan(root, init) {
      FolderPlanSound(root, init, d);
      var i, j :| PlannedAt(root, init, i, j, d);
      assert PlannedAt(root, cats, i, j, d);
    } else if d == categoryPath {
      assert PlannedAt(root, cats, n, -1, d);
    } else {
      assert d in SubDirs(categoryPath, cats[n].1);
      SubDirsIff(categoryPath, cats[n].1, d);
      var k :| 0 <= k < |cats[n].1| && d == Join(categoryPath, cats[n].1[k]);
      assert PlannedAt(root, cats, n, k, d);
    }
  }

  /** Every category folder and every subcategory folder is planned. */
  lemma {:induction false} FolderPlanComplete(root: string, cats: Table, i: int, j: int, d: string)
    requires PlannedAt(root, cats, i, j, d)
    ensures d in FolderPlan(root, cats)
    decreases |cats|
  {
    var n := |cats| - 1;
    var init := cats[..n];
    if i < n {
      assert PlannedAt(root, init, i, j, d);
      FolderPlanComplete(root, init, i, j, d);
    } else if j == -1 {
      assert d in CategoryFolders(root, cats[n]);
    } else {
      var categoryPath := Join(root, cats[n].0);
      SubDirsIff(categoryPath, cats[n].1, d);
      assert d in CategoryFolders(root, cats[n]);
    }
  }

  /** The plan holds exactly one folder per category and one per subcategory. */
  lemma FolderPlanIff(root: string, cats: Table, d: string)
    ensures d in FolderPlan(root, cats) <==> exists i, j :: PlannedAt(root, cats, i, j, d)
  {
    if d in FolderPlan(root, cats) {
      FolderPlanSound(root, cats, d);
    }
    if exists i, j :: PlannedAt(root, cats, i, j, d) {
      var i, j :| PlannedAt(root, cats, i, j, d);
      FolderPlanComplete(root, cats, i, j, d);
    }
  }

  /**
   * The directory a classified file is moved into is always one the setup
   * created: the category folder for the sentinel subcategory, the
   * subcategory folder otherwise.
   */
  lemma DestinationDirIsCreated(root: string, title: Wrappers.Option<string>, file: string)
    ensures CategoryDir(root, Classify(title, file)) in FolderPlan(root, Categories)
  {
    var l := Classify(title, file);
    ClassifyAdmissible(title, file);
    var d := CategoryDir(root, l);
    if l == Default {
      assert PlannedAt(root, Categories, 5, -1, d);
    } else {
      var i, j :| EntryAt(Categories, i, j, l);
      SubcategoryFacts(i, j);
      assert PlannedAt(root, Categories, i, j, d);
    }
    FolderPlanIff(root, Categories, d);
  }

  /**
   * Under a root without a trailing `/`, every file goes to
   * root/category/name, or root/category/subcategory/name when the decision
   * names a subcategory.
   */
  lemma DecisionDestPath(root: string, title: Wrappers.Option<string>, file: string)
    requires root != [] && root[|root| - 1] != '/'
    ensures var l := Classify(title, file);
      DestPath(root, l, file) ==
        root + "/" + l.category + (if l.subcategory == General then "" else "/" + l.subcategory) + "/" + Basename(file)
  {
    var l := Classify(title, file);
    ClassifyAdmissible(title, file);
    if l == Default {
      CategoryNameFacts(5);
    } else {
      var i, j :| EntryAt(Categories, i, j, l);
      CategoryNameFacts(i);
      SubcategoryFacts(i, j);
    }
    DestPathShape(root, l, file);
  }

  /** Extending the table by category `i` extends the plan by that category's folders. */
  lemma FolderPlanExtend(root: string, cats: Table, i: nat)
    requires i < |cats|
    ensures FolderPlan(root, cats[..i + 1]) == FolderPlan(root, cats[..i]) + CategoryFolders(root, cats[i])
  {
    assert cats[..i + 1][..i] == cats[..i];
  }

  /** The inner loop of `setup_folder_structure` (lines 165-167): one folder per subcategory, in order. */
  method CreateSubcategoryFolders(categoryPath: string, subcategories: seq<string>) returns (created: seq<string>)
    ensures created == SubDirs(categoryPath, subcategories)
  {
    created := [];
    var j := 0;
    while j < |subcategories|
      invariant 0 <= j <= |subcategories|
      invariant created + SubDirs(categoryPath, subcategories[j..]) == SubDirs(categoryPath, subcategories)
    {
      assert subcategories[j..][1..] == subcategories[j + 1..];
      created := created + [Join(categoryPath, subcategories[j])];
      j := j + 1;
    }
  }

  /** The loops of `setup_folder_structure` (lines 159-167) over a table: each category folder, then its subcategory folders. */
  method CreateFolders(root: string, cats: Table) returns (created: seq<string>)
    ensures created == FolderPlan(root, cats)
  {
    created := [];
    var i := 0;
    while i < |cats|
      invariant 0 <= i <= |cats|
      invariant created == FolderPlan(root, cats[..i])
    {
      var category, subcategories := cats[i].0, cats[i].1;
      var categoryPath := Join(root, category);
      var subfolders := CreateSubcategoryFolders(categoryPath, subcategories);
      FolderPlanExtend(root, cats, i);
      created := created + ([categoryPath] + subfolders);
      i := i + 1;
    }
    assert cats[..i] == cats;
  }

  /** `setup_folder_structure(root_dir)`: the folders of the whole taxonomy, in creation order. */
  method SetupFolderStructure(root: string) returns (created: seq<string>)
    ensures created == FolderPlan(root, Categories)
  {
    created := CreateFolders(root, Categories);
  }

  /** `[f for f in os.listdir() if f.endswith(".pdf")]`, in directory-listing order. */
  function PdfFiles(entries: seq<string>): (files: seq<string>)
    ensures forall f :: f in files <==> f in entries && EndsWith(f, ".pdf")
    ensures forall f :: multiset(files)[f] == if EndsWith(f, ".pdf") then multiset(entries)[f] else 0
    ensures |files| <= |entries|
  {
    if entries == [] then []
    else
      assert entries == [entries[0]] + entries[1..];
      (if EndsWith(entries[0], ".pdf") then [entries[0]] else []) + PdfFiles(entries[1..])
  }
}
