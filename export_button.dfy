/** The export button: what a click does and the label it shows. The button
    exports the records of the payer filter only. */
module ExportButton {
  import opened Text
  import opened JsDate
  import opened ExpenseService

  /** The effect of a click: an alert that nothing matched, a download, or an
      alert that the export failed. */
  datatype ExportOutcome = NothingToExport | Exported(file: CsvFile) | ExportFailed

  /** `handleExport`: filter by payer; alert when that leaves nothing, otherwise
      export it, alerting when the export reports failure. */
  function HandleExport(es: seq<Expense>, filter: string, today: Date,
                        localeDate: TimeValue -> string): (o: ExportOutcome)
    requires ValidDate(today) && -271821 <= today.year <= 275760
    ensures o.NothingToExport? <==> FilterExpenses(es, filter) == []
    ensures o.Exported? ==> Some(o.file) == ExportToCsv(Some(FilterExpenses(es, filter)), filter, today, localeDate)
  {
    var filtered := FilterExpenses(es, filter);
    if filtered == [] then NothingToExport
    else
      match ExportToCsv(Some(filtered), filter, today, localeDate)
      case None => ExportFailed
      case Some(file) => Exported(file)
  }

  /** The failure alert cannot be reached: a non-empty list always exports. */
  lemma ExportNeverFails(es: seq<Expense>, filter: string, today: Date, localeDate: TimeValue -> string)
    requires ValidDate(today) && -271821 <= today.year <= 275760
    ensures !HandleExport(es, filter, today, localeDate).ExportFailed?
  {
  }

  /** `getButtonText`. */
  function ButtonText(es: seq<Expense>, filter: string): (s: string)
    ensures FilterExpenses(es, filter) == [] <==> s == "Export CSV"
  {
    var count := |FilterExpenses(es, filter)|;
    if count == 0 then "Export CSV"
    else
      var filterText := if filter == "all" then "All" else filter + "'s";
      var text := "Export " + filterText + " (" + NatText(count) + ")";
      assert text[..7] == "Export " && text[7..] != "CSV";
      text
  }

  /** A button showing a count exports a file with that many data lines. */
  lemma ButtonCountMatchesExport(es: seq<Expense>, filter: string, today: Date,
                                 localeDate: TimeValue -> string)
    requires ValidDate(today) && -271821 <= today.year <= 275760
    requires forall i :: 0 <= i < |FilterExpenses(es, filter)| ==> RowSafe(FilterExpenses(es, filter)[i], localeDate)
    requires FilterExpenses(es, filter) != []
    ensures var filterText := if filter == "all" then "All" else filter + "'s";
      var n := |FilterExpenses(es, filter)|;
      var o := HandleExport(es, filter, today, localeDate);
      && ButtonText(es, filter) == "Export " + filterText + " (" + NatText(n) + ")"
      && ParseDigits(NatText(n)) == n
      && o.Exported?
      && |Split(o.file.content, '\n')| == n + 1
  {
    var n := |FilterExpenses(es, filter)|;
    ParseNatText(n);
    CsvLines(FilterExpenses(es, filter), localeDate);
  }
}
