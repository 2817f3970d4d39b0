/** The expense list view: which records it shows, its empty state, heading
    and count, and the confirmation step before a record is deleted. */
module ExpenseList {
  import opened Text
  import opened JsDate
  import opened Seqs
  import opened ExpenseService
  import opened ExportButton

  /** The records shown: the payer filter, then the date-range filter. A record
      is shown, as often as it occurs, exactly when both filters select it, and
      the shown records keep the input's order. */
  function DisplayedExpenses(es: seq<Expense>, filter: string, range: Option<DateRange>): (r: seq<Expense>)
    ensures forall e :: multiset(r)[e] ==
                        if PayerSelected(filter, e) && DateSelected(range, e) then multiset(es)[e] else 0
    ensures IsSubsequence(r, es)
  {
    var p := FilterExpenses(es, filter);
    FilterExpensesSpec(es, filter);
    FilterByDateRangeSpec(p, range);
    SubsequenceTransitive(FilterByDateRange(p, range), p, es);
    FilterByDateRange(p, range)
  }

  /** The two filters select the same records, in the same order, whichever is
      applied first. */
  lemma FiltersCommute(es: seq<Expense>, filter: string, range: Option<DateRange>)
    ensures DisplayedExpenses(es, filter, range) == FilterExpenses(FilterByDateRange(es, range), filter)
  {
    if filter != "all" && !NoBounds(range) {
      FilterCommute(es, PayerMatches(filter), InRange(range.value));
    }
  }

  /** What the list renders. */
  datatype ListView =
    | EmptyState(prompt: string)
    | Listing(heading: string, count: string, items: seq<Expense>, exportFrom: seq<Expense>)

  /** The empty-state prompt: an invitation to add a first expense, or, under a
      payer filter, a note naming that payer. */
  function EmptyPrompt(filter: string): (r: string)
    ensures r == "Add your first expense to get started" <==> filter == "all"
    ensures filter != "all" ==> |r| == |filter| + 21 && r[17..17 + |filter|] == filter
  {
    if filter == "all" then "Add your first expense to get started"
    else
      var r := "No expenses from " + filter + " yet";
      assert r[0] == 'N';
      r
  }

  /** The list heading: "All Expenses", or the filtered payer's name first. */
  function Heading(filter: string): (r: string)
    ensures filter == "all" ==> r == "All Expenses"
    ensures filter != "all" ==> |r| == |filter| + 11 && r[..|filter|] == filter
    ensures filter != "all" ==> r[|filter|..] == "'s Expenses"
  {
    if filter == "all" then "All Expenses" else filter + "'s Expenses"
  }

  /** "1 expense", "2 expenses", ... */
  function CountLabel(n: nat): (r: string)
    ensures |r| > |NatText(n)| && r[..|NatText(n)|] == NatText(n) && r[|NatText(n)|] == ' '
    ensures r[|NatText(n)| + 1..] == "expense" <==> n == 1
  {
    NatText(n) + " " + (if n == 1 then "expense" else "expenses")
  }

  /** The rendered list: the empty state when nothing is shown, else the
      heading, the count and the records, with the export button given the
      unfiltered list. */
  function Render(es: seq<Expense>, filter: string, range: Option<DateRange>): (v: ListView)
    ensures v.EmptyState? <==> DisplayedExpenses(es, filter, range) == []
    ensures v.EmptyState? ==> v.prompt == EmptyPrompt(filter)
    ensures v.Listing? ==>
      && v.items == DisplayedExpenses(es, filter, range)
      && v.heading == Heading(filter)
      && v.count == CountLabel(|v.items|)
      && v.exportFrom == es
  {
    var shown := DisplayedExpenses(es, filter, range);
    if |shown| == 0 then EmptyState(EmptyPrompt(filter))
    else Listing(Heading(filter), CountLabel(|shown|), shown, es)
  }

  /** The count label states the number of records shown, and reads singular
      exactly when there is one. */
  lemma CountLabelSpec(n: nat)
    ensures var s := CountLabel(n);
      var k := |NatText(n)|;
      && s[..k] == NatText(n) && ParseDigits(s[..k]) == n
      && (s[k + 1..] == "expense" <==> n == 1)
  {
    ParseNatText(n);
  }

  /** The export button of the list exports the payer-filtered records whatever
      the date range. */
  lemma ExportIgnoresDateRange(es: seq<Expense>, filter: string, range: Option<DateRange>,
                               today: Date, localeDate: TimeValue -> string)
    requires ValidDate(today) && -271821 <= today.year <= 275760
    requires Render(es, filter, range).Listing?
    ensures var v := Render(es, filter, range);
      && HandleExport(v.exportFrom, filter, today, localeDate).Exported?
      && Some(HandleExport(v.exportFrom, filter, today, localeDate).file)
         == ExportToCsv(Some(FilterExpenses(es, filter)), filter, today, localeDate)
  {
    var v := Render(es, filter, range);
    assert v.items[0] in FilterExpenses(es, filter) by {
      FilterByDateRangeSubset(FilterExpenses(es, filter), range, v.items[0]);
    }
  }

  lemma FilterByDateRangeSubset(es: seq<Expense>, range: Option<DateRange>, e: Expense)
    requires e in FilterByDateRange(es, range)
    ensures e in es
  {
    if !NoBounds(range) {
      FilterMultiset(es, InRange(range.value));
      assert e in multiset(FilterByDateRange(es, range));
    }
  }

  /** The delete-confirmation state of the list. */
  class DeleteState {
    var deleteModalOpen: bool
    var expenseToDelete: Option<Expense>
    var isDeleting: bool

    constructor()
      ensures !deleteModalOpen && expenseToDelete.None? && !isDeleting
    {
      deleteModalOpen := false;
      expenseToDelete := None;
      isDeleting := false;
    }

    /** `handleDeleteClick`: remember the record and open the modal. */
    method HandleDeleteClick(e: Expense)
      modifies this
      ensures expenseToDelete == Some(e) && deleteModalOpen
      ensures isDeleting == old(isDeleting)
    {
      expenseToDelete := Some(e);
      deleteModalOpen := true;
    }

    /** `handleConfirmDelete`. In demo mode (`demoMode`) the id is handed to the
        parent's delete and the modal always closes. Otherwise the id is sent
        to the service, whose reply is `deleteSucceeds`; only a success closes
        the modal. Returns the id asked to be deleted, None when no record was
        selected, in which case nothing changes. */
    method HandleConfirmDelete(demoMode: bool, deleteSucceeds: bool) returns (deletedId: Option<string>)
      modifies this
      ensures old(expenseToDelete).None? ==>
        deletedId.None? && deleteModalOpen == old(deleteModalOpen) &&
        expenseToDelete == old(expenseToDelete) && isDeleting == old(isDeleting)
      ensures old(expenseToDelete).Some? ==>
        && deletedId == Some(old(expenseToDelete).value.id)
        && !isDeleting
        && (demoMode || deleteSucceeds ==> !deleteModalOpen && expenseToDelete.None?)
        && (!demoMode && !deleteSucceeds ==>
              deleteModalOpen == old(deleteModalOpen) && expenseToDelete == old(expenseToDelete))
    {
      if expenseToDelete.None? {
        return None;
      }
      isDeleting := true;
      deletedId := Some(expenseToDelete.value.id);
      if demoMode {
        deleteModalOpen := false;
        expenseToDelete := None;
        isDeleting := false;
      } else {
        if deleteSucceeds {
          deleteModalOpen := false;
          expenseToDelete := None;
        }
        isDeleting := false;
      }
    }

    /** `handleCancelDelete`: close the modal and forget the record. */
    method HandleCancelDelete()
      modifies this
      ensures !deleteModalOpen && expenseToDelete.None? && isDeleting == old(isDeleting)
    {
      deleteModalOpen := false;
      expenseToDelete := None;
    }
  }
}
