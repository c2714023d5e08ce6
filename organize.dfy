/**
 * `organize_pdfs` with its worker pool run sequentially: filter the listing
 * to `.pdf` names, stop when there are none, create the folders, process
 * every file, then report.
 */
module Organize {
  import opened Wrappers
  import opened Taxonomy
  import opened Paths
  import opened Accounting
  import opened Report

  /**
   * One run over a directory listing. `titleOf` stands for the metadata
   * reader, `movedOf` for the outcome of creating the folder and moving the
   * file. The report is absent exactly when no file was counted; otherwise
   * it is the report on the counters after all files.
   */
  method OrganizePdfs(root: string, entries: seq<string>,
                      titleOf: string -> Option<string>, movedOf: string -> bool)
    returns (folders: seq<string>, report: Option<seq<ReportLine>>)
    ensures PdfFiles(entries) == [] ==> folders == [] && report == None
    ensures PdfFiles(entries) != [] ==> folders == FolderPlan(root, Categories)
    ensures report.None? <==> Run(Initial(), PdfFiles(entries), titleOf, movedOf).total == 0
    ensures report.Some? ==> IsReport(Run(Initial(), PdfFiles(entries), titleOf, movedOf), report.value)
  {
    var files := PdfFiles(entries);
    if |files| == 0 {
      return [], None;
    }
    folders := SetupFolderStructure(root);
    var organizer := new Organizer();
    organizer.Drain(root, files, titleOf, movedOf);
    report := GenerateReport(organizer.Snapshot());
  }
}
