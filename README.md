# PDF organizer and categorisation report — Dafny model

`organize_and_report.py` sorts the PDF files of one directory into a fixed
two-level folder taxonomy (`Programming/Python`, `AI/Machine_Learning`,
`Others`, …). Each file is classified by scanning its metadata title, then
its file name, for a subcategory name; a chain of hand-written file-name
rules overrides the scan. The same rules, applied alone, give the "expected"
category, and a file whose decision agrees with it is counted correct. Files
are moved by a small worker pool that shares per-category counters, and at
the end a report gives each category's share of the moved files and the
correctness score.

The model covers:

- `Taxonomy` — the `CATEGORIES` table as an ordered sequence (Python dict
  order), the `Others`/`General` default and facts about the table.
- `Text` — ASCII lower-casing and Python's substring test `in`.
- `Rules` — the override chain and `get_expected_category`, both as the
  literal if/elif chain and as "first firing rule" of a rule table.
- `Classifier` — the three-stage decision of `categorize_file` (title scan,
  file-name scan, override), as a function and as the source's nested
  loops with `break`.
- `Paths` — destination paths, `setup_folder_structure` and the `.pdf`
  filter.
- `Accounting` — the shared counters (`file_counts`, `total_file_count`,
  `correctly_categorized_files`) as a class whose methods update them, the
  per-file step and the drained queue.
- `Report` — `generate_report` as a sequence of structured report lines.
- `Organize` — `organize_pdfs` end to end.

The metadata title of each file and whether its folder creation and move
succeed are parameters (`titleOf`, `movedOf`): the PDF reader and the file
system are outside the model.

Two properties one might expect do not hold of the code, and the model
follows the code. The file-name scan tests subcategory names in table order
and `"c"` (Programming/C) is the third name tested, so when no override
rule fires and the title scan finds nothing, the file-name scan puts any
lower-case name containing the letter `c` and neither `python` nor `java`
in Programming/C (`ClassifierExamples.ScanMeetsC`,
`Classifier.ScanStagesDecide`): `intro_to_machine_learning.pdf` without a
title is filed as Programming/C, not AI/Machine_Learning
(`ClassifierExamples.IntroToMachineLearning`). And the correct count is
raised before the move, outside the lock that guards the total, so it can
exceed the total when moves fail, and the report then shows a correctness
score above 100% (`Accounting.CorrectCanExceedTotal`,
`Report.ReportedScoreCanExceed100`); what does hold is that it exceeds the
total by at most the number of failed moves (`Accounting.RunFromStart`).

## Model

| member | source | states |
|---|---|---|
| Taxonomy.CategoryNamesValue | organize_and_report.py:8-15 | the category names, in dict order, are Programming, AI, Math, Database, Security, Others |
| Taxonomy.CategoryNamesDistinct | organize_and_report.py:8-18 | category names are pairwise distinct, so each has exactly one counter |
| Taxonomy.OthersIsCategory | organize_and_report.py:14 | the catch-all "Others" is one of the categories |
| Taxonomy.CategoryNameFacts | organize_and_report.py:8-15 | every category name is a non-empty name without '/' |
| Taxonomy.SubcategoryFacts | organize_and_report.py:8-15 | no subcategory is the sentinel "General"; every subcategory is a non-empty name without '/' |
| Taxonomy.AdmissibleCategoryIsName | organize_and_report.py:8-18 | a label from the table or the default has a category that is a key of `file_counts` |
| Text.LowerChar | organize_and_report.py:54 | lower-casing a character leaves no upper-case letter: letters A-Z move to a-z, everything else is unchanged |
| Text.ToLowerOfLower | organize_and_report.py:54 | lower-casing a string with no upper-case letter leaves it unchanged |
| Text.ContainsIff | organize_and_report.py:54 | the recursive substring test holds exactly when the needle occurs at some position of the haystack |
| Text.NotContainsMissingChar | organize_and_report.py:54 | a needle holding a character the haystack lacks is not a substring |
| Rules.ExpectedCategory | organize_and_report.py:219-237 | the expected label is the override chain's label when one of its rules fires, and Others/General otherwise |
| Rules.FirstRuleIsEarliest | organize_and_report.py:73-93 | the first-rule search returns the label of a firing rule with no firing rule before it, and nothing exactly when no rule fires |
| Rules.OverrideIsFirstRule | organize_and_report.py:73-93 | the if/elif override chain equals the first firing rule of the seven-rule table on the lower-cased file name |
| Rules.OverrideAdmissible | organize_and_report.py:73-93 | every label the override chain assigns is a (category, subcategory) pair of the table |
| Classifier.FirstSubHitIsEarliest | organize_and_report.py:53-57 | the inner scan returns a subcategory occurring in the text with no earlier subcategory of the list occurring, and nothing exactly when none occurs |
| Classifier.FirstHitIsEarliest | organize_and_report.py:52-59 | the table scan returns the first (category, subcategory) pair in table order whose lower-cased subcategory occurs in the text, and nothing exactly when none does |
| Classifier.FirstHitInTable | organize_and_report.py:52-59 | a scan hit is a pair of the table |
| Classifier.FirstHitNotGeneral | organize_and_report.py:58-59 | a scan hit never has subcategory "General", so the outer loop's `!= "General"` test detects it |
| Classifier.ClassifyAdmissible | organize_and_report.py:47-93 | every decision is a table pair or Others/General, so its category is a key of `file_counts` |
| Classifier.OverrideDominates | organize_and_report.py:73-93 | when an override rule fires, the decision is that rule's label whatever the title, and equals the expected label |
| Classifier.ScanStagesDecide | organize_and_report.py:47-70 | with no override, a title hit decides; otherwise a file-name hit decides; otherwise the default |
| Classifier.CountedCorrectIff | organize_and_report.py:96-100 | a file is counted correct exactly when an override rule fires, or neither the title nor the file name hits any subcategory |
| Classifier.ScanStage | organize_and_report.py:52-70 | the nested loops with `break` set (category, subcategory) to the first hit in table order, and leave them unchanged when nothing hits |
| Classifier.Categorize | organize_and_report.py:46-93 | the imperative decision of `categorize_file` equals the classification function |
| ClassifierExamples.NoOverrideWithoutPhraseChars | organize_and_report.py:73-93 | a lower-case file name without ' ', 'u', 'y', 'q' fires no override rule and is expected in Others/General |
| ClassifierExamples.ScanMeetsC | organize_and_report.py:9 | a lower-case file name containing 'c' but no 'y' or 'j' scans to Programming/C |
| ClassifierExamples.IntroToMachineLearning | organize_and_report.py:61-93 | `intro_to_machine_learning.pdf` without a title is filed under Programming/C and expected in Others/General |
| ClassifierExamples.GuestLectureLinear | organize_and_report.py:73-75 | `guest_lecture_linear.pdf` goes to Math/Linear_Algebra even when its title names SQL, and that is its expected label |
| Paths.JoinPlain | organize_and_report.py:103-107 | joining a directory without trailing '/' to a relative name inserts exactly one '/' |
| Paths.Basename | organize_and_report.py:107 | the base name has no '/', is a suffix of the path, and is preceded by '/' when shorter than the path |
| Paths.DestPathShape | organize_and_report.py:103-107 | the destination is root/category/file or root/category/subcategory/file, the subcategory level omitted exactly for "General" |
| Paths.SubDirsIff | organize_and_report.py:165-167 | the subfolders of a category are exactly its path joined with each subcategory, one per subcategory |
| Paths.FolderPlanSound | organize_and_report.py:159-167 | every created folder is a category folder or a category folder joined with one of its subcategories |
| Paths.FolderPlanComplete | organize_and_report.py:159-167 | every category folder and every subcategory folder is created |
| Paths.FolderPlanIff | organize_and_report.py:159-167 | a folder is created exactly when it is a category folder or a category folder joined with one of its subcategories |
| Paths.DestinationDirIsCreated | organize_and_report.py:103-106 | the folder a file is moved into is always among the folders created up front |
| Paths.DecisionDestPath | organize_and_report.py:103-107 | under a root without trailing '/', every classified file goes to root/category/name, or root/category/subcategory/name when the decision names a subcategory |
| Paths.CreateSubcategoryFolders | organize_and_report.py:165-167 | the inner loop creates the subcategory folders in order |
| Paths.CreateFolders | organize_and_report.py:159-167 | the outer loop creates, for each category of any table in order, its folder followed by its subcategory folders |
| Paths.SetupFolderStructure | organize_and_report.py:155-167 | the folders created are the plan of the whole taxonomy: every category folder followed by its subcategory folders, in table order |
| Paths.PdfFiles | organize_and_report.py:184 | the selected files are exactly the listed names ending in ".pdf", each as many times as it is listed, and no other name |
| Accounting.Initial | organize_and_report.py:18-20 | the initial counters have one count per category |
| Accounting.InitialBalanced | organize_and_report.py:18-20 | the initial counts add up to the initial total, zero |
| Accounting.RecordChangesOneCount | organize_and_report.py:99-113 | one file raises its category's count and the total by one if moved and by zero otherwise, leaves other counts alone, and raises the correct count exactly when the decision was correct |
| Accounting.RecordPreservesBalance | organize_and_report.py:110-113 | recording an outcome keeps the per-category counts adding up to the total |
| Accounting.StepPreservesBalance | organize_and_report.py:39-113 | processing one file keeps the counts adding up to the total |
| Accounting.RunPreservesBalance | organize_and_report.py:122-128 | draining any file sequence keeps the counts adding up to the total |
| Accounting.RunTotals | organize_and_report.py:99-113 | over a run the total rises by the number of moved files, and the correct count by the number of files whose decision equals `get_expected_category`, hence by at most the number of files |
| Accounting.StepCategoryCount | organize_and_report.py:110-112 | one file raises the count of a category by one exactly when it was moved and its decision is in that category |
| Accounting.RunCategoryCount | organize_and_report.py:110-112 | over a run the count of each category rises by the number of moved files decided into it |
| Accounting.RunFromStart | organize_and_report.py:18-20 | from the initial counters the counts add up to the total, and the correct count exceeds the total by at most the number of failed moves |
| Accounting.OverriddenPairOneMoved | organize_and_report.py:99-113 | two files the override chain decides, the first of whose moves fails, leave correct = 2 and total = 1 |
| Accounting.CorrectCanExceedTotal | organize_and_report.py:99-113 | with no titles, `calculus.pdf` failing to move and `calculus2.pdf` moved, the run ends with correct = 2 and total = 1 |
| Accounting.CalculusRuleFires | organize_and_report.py:88-90 | a lower-case name starting "calculus" with no 'n', 'y', 'm' fires exactly the calculus rule |
| Accounting.Organizer.constructor | organize_and_report.py:18-20 | the counters start at their initial values and balanced |
| Accounting.Organizer.RecordOutcome | organize_and_report.py:99-113 | the three counters are updated in place so that the new snapshot is the old one with this outcome recorded |
| Accounting.Organizer.CategorizeFile | organize_and_report.py:39-113 | returns the classification and destination path and leaves the counters as one step on the old counters, balanced |
| Accounting.Organizer.Drain | organize_and_report.py:122-128 | after the queue is drained the counters are the run of all files over the old counters, balanced |
| Report.CategoryLines | organize_and_report.py:142-144 | one line per listed category, in order, with its count and its share count / total |
| Report.GenerateReport | organize_and_report.py:130-146 | no report exactly when the total is zero; otherwise header, one line per category in order with count / total, and correct / total |
| Report.SumSharesIsSumCounts | organize_and_report.py:142-144 | the category lines' numerators add up to the sum of the category counts |
| Report.ReportedScoreCanExceed100 | organize_and_report.py:138-146 | the report on that run exists and its correctness score is 2/1, i.e. 200% |
| Report.PercentagesSumTo100 | organize_and_report.py:141-144 | with balanced counters all category lines share the total as denominator and their numerators add up to it: the percentages sum to 100 before rounding |
| Organize.OrganizePdfs | organize_and_report.py:174-214 | no folders and no report when there is no PDF; otherwise the full folder plan is created and the report, absent exactly when no file was moved, is the report on the counters after all files |

## Left out

- Metadata extraction (`extract_metadata`, PdfReader): a foreign library; the title of each file is the parameter `titleOf`, `None` standing for no metadata, no `/Title` entry or a read error. A title that is not a string is not modelled.
- File-system and console effects (`input`, `os.chdir`, `os.listdir`, `os.makedirs`, `shutil.move`, `os.path.abspath`, printing, writing `report.txt`): the listing is a parameter, the created folders are returned as a list, the report is returned as values, and the success of folder creation plus move is the parameter `movedOf`.
- Threads, `Queue`, `lock`, `min(4, len(files))` workers and the racy `empty()`/`get()` loop: the queue is drained sequentially in order (`Accounting.Organizer.Drain`); the unlocked increment of the correct count, which can lose updates under real concurrency, is modelled as an ordinary increment.
- Report.GenerateReport: percentages are exact fractions `part/whole` rather than floats rounded to two decimals, and the lines are structured values rather than formatted text.
- Text.LowerChar: lower-cases ASCII letters only; Unicode case mapping is not modelled.
- Accounting.Organizer.CategorizeFile: the returned message string and the two exception messages are not modelled; every failure after the decision is folded into `moved = false`.
- Paths.SetupFolderStructure: a failing `os.makedirs` re-raises and ends the run; the model assumes folder creation succeeds at this stage.
