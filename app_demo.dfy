/** The demo application: an in-memory expense list that starts from five
    sample records, adds a new record in front, and deletes records by id. */
module AppDemo {
  import opened Text
  import opened JsDate
  import opened Seqs
  import opened ExpenseService

  /** A sample record: a payer, an amount in cents, a description and a
      "YYYY-MM-DD" date, stamped with the UTC midnight of that date. */
  function Mock(id: string, payer: string, cents: int, description: string, date: string, ms: int): Expense {
    Expense(id, Some(payer), Some(cents), Some(description), DateText(date), None, DateStamp(Time(ms)), NoStamp)
  }

  /** The five sample records the demo starts with; `new Date('2024-01-15')` and the
      others are written as their time values. */
  const MockExpenses: seq<Expense> := [
    Mock("1", "Leslie", 25000, "Textbooks for Winter Quarter", "2024-01-15", 1705276800000),
    Mock("2", "Ian", 45000, "Meal Plan Payment", "2024-01-10", 1704844800000),
    Mock("3", "Leslie", 12550, "Dorm Supplies - Bedding & Storage", "2024-01-08", 1704672000000),
    Mock("4", "Ian", 8999, "Parking Permit", "2024-01-05", 1704412800000),
    Mock("5", "Leslie", 32000, "Lab Equipment for Chemistry", "2024-01-03", 1704240000000)
  ]

  /** The sample time values are the midnights of their calendar dates. */
  lemma MockStampsAreMidnights()
    ensures forall i :: 0 <= i < |MockExpenses| ==>
      MockExpenses[i].timestamp.at.ms % MsPerDay == 0
  {
  }

  /** The record `handleAddExpense` stores: the input's fields, with the id set to the
      clock's millisecond count as text and the timestamp to the clock's time. */
  function Stamped(input: Expense, now: int): (r: Expense)
    ensures r.id == IntText(now) && r.timestamp == DateStamp(Time(now))
    ensures r.payer == input.payer && r.amount == input.amount && r.description == input.description
    ensures r.date == input.date && r.note == input.note && r.createdAt == input.createdAt
  {
    input.(id := IntText(now), timestamp := DateStamp(Time(now)))
  }

  /** The test `exp.id !== id` of `handleDeleteExpense`. */
  function IdIsNot(id: string): Expense -> bool {
    (e: Expense) => e.id != id
  }

  /** Deleting by id removes every record with that id and keeps the others in order. */
  lemma DeleteSpec(s: seq<Expense>, id: string)
    ensures forall e :: e in Filter(s, IdIsNot(id)) ==> e.id != id
    ensures IsSubsequence(Filter(s, IdIsNot(id)), s)
    ensures forall e :: e in s && e.id != id ==> multiset(Filter(s, IdIsNot(id)))[e] == multiset(s)[e]
  {
    FilterIsSubsequence(s, IdIsNot(id));
    FilterMultiset(s, IdIsNot(id));
    forall e | e in Filter(s, IdIsNot(id)) ensures e.id != id {
      var r := Filter(s, IdIsNot(id));
      var k :| 0 <= k < |r| && r[k] == e;
    }
  }

  /** Deleting an id no record has leaves the list as it was. */
  lemma DeleteAbsentId(s: seq<Expense>, id: string)
    requires forall i :: 0 <= i < |s| ==> s[i].id != id
    ensures Filter(s, IdIsNot(id)) == s
  {
    FilterKeepsAll(s, IdIsNot(id));
  }

  /** Deleting the record just added, when its id was new, gives back the earlier list. */
  lemma AddThenDelete(s: seq<Expense>, input: Expense, now: int)
    requires forall i :: 0 <= i < |s| ==> s[i].id != IntText(now)
    ensures Filter([Stamped(input, now)] + s, IdIsNot(IntText(now))) == s
  {
    FilterCons(Stamped(input, now), s, IdIsNot(IntText(now)));
    DeleteAbsentId(s, IntText(now));
  }

  /** The totals of the sample records: $1235.49 in all, $695.50 paid by Leslie and
      $539.99 by Ian, so Ian is $77.755 short of half and Leslie owes nothing. */
  lemma MockTotals()
    ensures TotalsOf(MockExpenses) == Totals(123549, 69550, 53999, Fixed(563), Fixed(437), 0.0, 7775.5)
  {
    MockSums();
  }

  lemma MockSums()
    ensures Sum(MockExpenses, AmountOf) == 123549
    ensures Sum(MockExpenses, LeslieShare) == 69550
    ensures Sum(MockExpenses, IanShare) == 53999
  {
    assert Lower("Leslie") == "leslie";
    assert Lower("Ian") == "ian";
    var s := MockExpenses;
    assert s[1..][1..][1..][1..][1..] == [];
  }

  /** The demo's state: the expense list and the payer filter. */
  class Demo {
    var expenses: seq<Expense>
    var filter: string

    /** The demo starts with the sample records and no payer filter. */
    constructor ()
      ensures expenses == MockExpenses && filter == "all"
    {
      expenses := MockExpenses;
      filter := "all";
    }

    /** `handleAddExpense(newExpense)`: the stamped record goes in front of the list. */
    method HandleAddExpense(newExpense: Expense, now: int)
      modifies this
      ensures expenses == [Stamped(newExpense, now)] + old(expenses)
      ensures expenses[1..] == old(expenses) && filter == old(filter)
    {
      var expense := Stamped(newExpense, now);
      expenses := [expense] + expenses;
    }

    /** `handleDeleteExpense(id)`: keeps the records with another id, in order. */
    method HandleDeleteExpense(id: string)
      modifies this
      ensures expenses == Filter(old(expenses), IdIsNot(id))
      ensures filter == old(filter)
    {
      expenses := Filter(expenses, IdIsNot(id));
    }
  }
}
