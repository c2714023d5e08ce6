/**
 * The fixed category -> subcategory table (`CATEGORIES`) and the
 * (category, subcategory) decision the classifier produces.
 */
module Taxonomy {

  /** A taxonomy: categories in iteration order, each with its ordered subcategories. */
  type Table = seq<(string, seq<string>)>

  /** A (category, subcategory) decision. */
  datatype Label = Label(category: string, subcategory: string)

  /** The sentinel subcategory meaning "unresolved within this category". */
  const General: string := "General"

  /** The catch-all category, which has no subcategories. */
  const Others: string := "Others"

  /** The decision made when nothing matches. */
  const Default: Label := Label(Others, General)

  /** `CATEGORIES`, in the dictionary's insertion order. */
  const Categories: Table := [
    ("Programming", ["Python", "Java", "C"]),
    ("AI", ["Machine_Learning", "Neural_Networks"]),
    ("Math", ["Linear_Algebra", "Calculus"]),
    ("Database", ["SQL", "NoSQL"]),
    ("Security", ["Cryptography", "Network_Security"]),
    ("Others", [])
  ]

  /** The category names of a table, in order (the keys of `file_counts`). */
  function CategoryNames(cats: Table): (names: seq<string>)
    ensures |names| == |cats|
    ensures forall i :: 0 <= i < |cats| ==> names[i] == cats[i].0
  {
    if cats == [] then [] else [cats[0].0] + CategoryNames(cats[1..])
  }

  /** The label names subcategory `j` of category `i`. */
  predicate EntryAt(cats: Table, i: int, j: int, l: Label) {
    0 <= i < |cats| && 0 <= j < |cats[i].1| && l == Label(cats[i].0, cats[i].1[j])
  }

  /** The label is one of the table's (category, subcategory) pairs. */
  ghost predicate InTable(cats: Table, l: Label) {
    exists i, j :: EntryAt(cats, i, j, l)
  }

  /** A label the classifier may produce: the default or a table entry. */
  ghost predicate Admissible(l: Label) {
    l == Default || InTable(Categories, l)
  }

  predicate Distinct(names: seq<string>) {
    forall i, j :: 0 <= i < j < |names| ==> names[i] != names[j]
  }

  /** The keys of `file_counts`, in order. */
  lemma CategoryNamesValue()
    ensures CategoryNames(Categories) == ["Programming", "AI", "Math", "Database", "Security", "Others"]
  {
  }

  /** Names that start with pairwise different letters are pairwise different. */
  lemma DistinctByInitial(names: seq<string>)
    requires forall i :: 0 <= i < |names| ==> names[i] != []
    requires forall i, j :: 0 <= i < j < |names| ==> names[i][0] != names[j][0]
    ensures Distinct(names)
  {
  }

  /** No two categories share a name, so each has exactly one counter. */
  lemma CategoryNamesDistinct()
    ensures Distinct(CategoryNames(Categories))
  {
    CategoryNamesValue();
    DistinctByInitial(CategoryNames(Categories));
  }

  /** The catch-all is one of the categories. */
  lemma OthersIsCategory()
    ensures Others in CategoryNames(Categories)
  {
    CategoryNamesValue();
    assert CategoryNames(Categories)[5] == Others;
  }

  /** Every category name is a non-empty relative path component. */
  lemma CategoryNameFacts(i: int)
    requires 0 <= i < |Categories|
    ensures Categories[i].0 != [] && '/' !in Categories[i].0
  {
    if i == 0 {
    } else if i == 1 {
    } else if i == 2 {
    } else if i == 3 {
    } else if i == 4 {
    } else {
    }
  }

  /** No subcategory is the sentinel, and each is a non-empty relative path component. */
  lemma SubcategoryFacts(i: int, j: int)
    requires 0 <= i < |Categories| && 0 <= j < |Categories[i].1|
    ensures Categories[i].1[j] != General
    ensures Categories[i].1[j] != [] && '/' !in Categories[i].1[j]
  {
    if i == 0 {
    } else if i == 1 {
    } else if i == 2 {
    } else if i == 3 {
    } else {
    }
  }

  /** Every admissible label's category is a key of the per-category counters. */
  lemma AdmissibleCategoryIsName(l: Label)
    requires Admissible(l)
    ensures l.category in CategoryNames(Categories)
  {
    OthersIsCategory();
    if l != Default {
      var i, j :| EntryAt(Categories, i, j, l);
      assert CategoryNames(Categories)[i] == l.category;
    }
  }
}
