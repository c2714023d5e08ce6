/**
 * `generate_report` (lines 130-146): nothing when no file was counted;
 * otherwise a header, one line per category in taxonomy order with its
 * share of the total, and the correctness score. Percentages are kept as
 * exact fractions instead of two-decimal floats.
 */
module Report {
  import opened Wrappers
  import opened Taxonomy
  import opened Accounting

  /** The percentage `part * 100 / whole`, unrounded. */
  datatype Percent = Percent(part: int, whole: int)

  datatype ReportLine =
    | Header                                                   // "Analysis Report:" and its underline
    | CategoryLine(category: string, share: Percent, count: int)  // "<category>: <pp.pp>% (<n> files)"
    | CorrectnessLine(score: Percent)                          // "Correctness Score: <pp.pp>%"

  /** The lines of a report on `t`: header, one line per category in order, correctness score. */
  ghost predicate IsReport(t: Tally, lines: seq<ReportLine>)
    requires KeysOk(t)
  {
    var names := CategoryNames(Categories);
    && |lines| == |names| + 2
    && lines[0] == Header
    && (forall i :: 0 <= i < |names| ==>
          lines[i + 1] == CategoryLine(names[i], Percent(t.counts[names[i]], t.total), t.counts[names[i]]))
    && lines[|names| + 1] == CorrectnessLine(Percent(t.correct, t.total))
  }

  /** The report line of each listed category, in order (the loop of lines 142-144). */
  method CategoryLines(t: Tally, names: seq<string>) returns (lines: seq<ReportLine>)
    requires forall n | n in names :: n in t.counts
    ensures |lines| == |names|
    ensures forall i :: 0 <= i < |names| ==>
      lines[i] == CategoryLine(names[i], Percent(t.counts[names[i]], t.total), t.counts[names[i]])
  {
    lines := [];
    var i := 0;
    while i < |names|
      invariant 0 <= i <= |names|
      invariant |lines| == i
      invariant forall k :: 0 <= k < i ==>
        lines[k] == CategoryLine(names[k], Percent(t.counts[names[k]], t.total), t.counts[names[k]])
    {
      var count := t.counts[names[i]];
      lines := lines + [CategoryLine(names[i], Percent(count, t.total), count)];
      i := i + 1;
    }
  }

  /** The report on a snapshot of the counters: header, category lines, correctness score. */
  method GenerateReport(t: Tally) returns (report: Option<seq<ReportLine>>)
    requires KeysOk(t)
    ensures report.None? <==> t.total == 0
    ensures report.Some? ==> IsReport(t, report.value)
  {
    if t.total == 0 {
      return None;
    }
    var names := CategoryNames(Categories);
    NamesAreKeys(t);
    var body := CategoryLines(t, names);
    var lines := [Header] + body + [CorrectnessLine(Percent(t.correct, t.total))];
    ReportShape(t, names, body, lines);
    report := Some(lines);
  }

  /** Framing the category lines with the header and the score gives the report's layout. */
  lemma ReportShape(t: Tally, names: seq<string>, body: seq<ReportLine>, lines: seq<ReportLine>)
    requires forall n | n in names :: n in t.counts
    requires |body| == |names|
    requires forall i :: 0 <= i < |names| ==>
      body[i] == CategoryLine(names[i], Percent(t.counts[names[i]], t.total), t.counts[names[i]])
    requires lines == [Header] + body + [CorrectnessLine(Percent(t.correct, t.total))]
    ensures |lines| == |names| + 2 && lines[0] == Header
    ensures forall i :: 0 <= i < |names| ==>
      lines[i + 1] == CategoryLine(names[i], Percent(t.counts[names[i]], t.total), t.counts[names[i]])
    ensures lines[|names| + 1] == CorrectnessLine(Percent(t.correct, t.total))
  {
    var framed := [Header] + body;
    assert lines == framed + [CorrectnessLine(Percent(t.correct, t.total))];
    assert forall i :: 0 <= i < |framed| ==> lines[i] == framed[i];
    assert forall i :: 0 <= i < |body| ==> framed[i + 1] == body[i];
  }

  /** The sum of the category lines' numerators. */
  function SumShares(lines: seq<ReportLine>): (sum: int) {
    if lines == [] then 0
    else (if lines[0].CategoryLine? then lines[0].share.part else 0) + SumShares(lines[1..])
  }

  lemma {:induction false} SumSharesIsSumCounts(t: Tally, lines: seq<ReportLine>, names: seq<string>)
    requires forall n | n in names :: n in t.counts
    requires |lines| == |names|
    requires forall i :: 0 <= i < |names| ==>
      lines[i] == CategoryLine(names[i], Percent(t.counts[names[i]], t.total), t.counts[names[i]])
    ensures SumShares(lines) == SumCounts(t.counts, names)
  {
    if names != [] {
      SumSharesIsSumCounts(t, lines[1..], names[1..]);
    }
  }

  /** The category lines of a report-shaped sequence over `names` share the total and add up to the counts. */
  lemma CategoryLinesShareTotal(t: Tally, lines: seq<ReportLine>, names: seq<string>)
    requires forall n | n in names :: n in t.counts
    requires |lines| == |names| + 2
    requires forall i :: 0 <= i < |names| ==>
      lines[i + 1] == CategoryLine(names[i], Percent(t.counts[names[i]], t.total), t.counts[names[i]])
    ensures forall i :: 1 <= i <= |names| ==> lines[i].CategoryLine? && lines[i].share.whole == t.total
    ensures SumShares(lines[1..|names| + 1]) == SumCounts(t.counts, names)
  {
    var body := lines[1..|names| + 1];
    assert forall i :: 0 <= i < |names| ==> body[i] == lines[i + 1];
    SumSharesIsSumCounts(t, body, names);
  }

  /**
   * With balanced counters, the category lines of a report share one
   * denominator, the total, and their numerators add up to it: the
   * category percentages add up to exactly 100 before rounding.
   */
  lemma PercentagesSumTo100(t: Tally, lines: seq<ReportLine>)
    requires Balanced(t) && t.total > 0 && IsReport(t, lines)
    ensures var n := |CategoryNames(Categories)|;
      && (forall i :: 1 <= i <= n ==> lines[i].CategoryLine? && lines[i].share.whole == t.total)
      && SumShares(lines[1..n + 1]) == t.total
  {
    var names := CategoryNames(Categories);
    assert forall n | n in names :: n in t.counts;
    CategoryLinesShareTotal(t, lines, names);
  }

  /**
   * The report on the run of `CorrectCanExceedTotal` exists (its total is one)
   * and its correctness score is 2/1, that is 200%.
   */
  lemma ReportedScoreCanExceed100(lines: seq<ReportLine>)
    requires IsReport(Run(Initial(), ["calculus.pdf", "calculus2.pdf"], NoTitle, OnlySecondMoved), lines)
    ensures lines[|lines| - 1] == CorrectnessLine(Percent(2, 1))
  {
    CorrectCanExceedTotal();
  }
}
