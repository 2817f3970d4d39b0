/** The expense service: the record shape, per-payer totals toward a 50/50
    split, the payer and date-range filters, CSV export text, the timestamp
    normalisation and newest-first ordering applied to a snapshot, and the
    defaults filled in when an expense is added. Amounts are integer cents. */
module ExpenseService {
  import opened Text
  import opened JsDate
  import opened Seqs
  import opened Sorting

  /** What the `date` field of a record holds. */
  datatype DateField =
    | NoDate                       // absent, null or another falsy value
    | DateText(text: string)       // a string, normally "YYYY-MM-DD"
    | DateValue(time: TimeValue)   // a JavaScript Date object
    | OtherDate                    // any other truthy value

  /** What the `timestamp` and `createdAt` fields hold. */
  datatype Stamp =
    | NoStamp                      // absent or a value without `toDate`/`getTime`
    | FirestoreStamp(at: TimeValue) // a Firestore Timestamp (has `toDate`)
    | DateStamp(at: TimeValue)     // a JavaScript Date (has `getTime`)

  /** An expense record. `amount` is the numeric value in cents, None when it
      is missing or not a number. */
  datatype Expense = Expense(
    id: string,
    payer: Option<string>,
    amount: Option<int>,
    description: Option<string>,
    date: DateField,
    note: Option<string>,
    timestamp: Stamp,
    createdAt: Stamp)

  // ---------------------------------------------------------------------------
  // Totals

  /** `parseFloat(expense.amount) || 0`: a missing or non-numeric amount counts 0. */
  function AmountOf(e: Expense): (c: int)
    ensures e.amount.None? ==> c == 0
    ensures e.amount.Some? ==> c == e.amount.value
  {
    if e.amount.Some? then e.amount.value else 0
  }

  /** `payer?.toLowerCase() === name`: an absent payer matches nothing. */
  predicate PayerIs(e: Expense, name: string) {
    e.payer.Some? && Lower(e.payer.value) == name
  }

  predicate IsLeslie(e: Expense) { PayerIs(e, "leslie") }

  predicate IsIan(e: Expense) { PayerIs(e, "ian") }

  function LeslieShare(e: Expense): int { if IsLeslie(e) then AmountOf(e) else 0 }

  function IanShare(e: Expense): int { if !IsLeslie(e) && IsIan(e) then AmountOf(e) else 0 }

  function UnassignedShare(e: Expense): int { if !IsLeslie(e) && !IsIan(e) then AmountOf(e) else 0 }

  /** A percentage as `calculateTotals` reports it: the number 0 when the total
      is 0, else the one-decimal text of `toFixed(1)`, kept as tenths. */
  datatype Percent = Zero | Fixed(tenths: int)

  datatype Totals = Totals(
    total: int, leslie: int, ian: int,
    lesliePct: Percent, ianPct: Percent,
    leslieOwes: real, ianOwes: real)

  /** `(part / whole * 100).toFixed(1)` in tenths of a percent: the nearest
      integer to 1000 * part / whole, a tie going away from zero. */
  function Tenths(part: int, whole: int): (t: int)
    requires whole > 0
    ensures part >= 0 ==> 2 * whole * t - whole <= 2000 * part < 2 * whole * t + whole
    ensures part < 0 ==> 2 * whole * t - whole < 2000 * part <= 2 * whole * t + whole
  {
    if part >= 0 then (2000 * part + whole) / (2 * whole)
    else -((2000 * -part + whole) / (2 * whole))
  }

  function PercentOf(part: int, whole: int): (p: Percent)
    ensures p.Zero? <==> whole <= 0
  {
    if whole > 0 then Fixed(Tenths(part, whole)) else Zero
  }

  /** `Math.max(0, total / 2 - part)`. */
  function Owes(total: int, part: int): (r: real)
    ensures r >= 0.0
    ensures r > 0.0 <==> 2 * part < total
    ensures r > 0.0 ==> r == total as real / 2.0 - part as real
  {
    var d := total as real / 2.0 - part as real;
    if d > 0.0 then d else 0.0
  }

  /** The totals of a list of expenses, stated through sums over the list. */
  function TotalsOf(es: seq<Expense>): Totals
  {
    var total := Sum(es, AmountOf);
    var leslie := Sum(es, LeslieShare);
    var ian := Sum(es, IanShare);
    Totals(total, leslie, ian, PercentOf(leslie, total), PercentOf(ian, total),
           Owes(total, leslie), Owes(total, ian))
  }

  lemma {:induction false} SumSnoc<T>(s: seq<T>, i: nat, f: T -> int)
    requires i < |s|
    ensures Sum(s[..i + 1], f) == Sum(s[..i], f) + f(s[i])
  {
    assert s[..i + 1] == s[..i] + [s[i]];
    SumConcat(s[..i], [s[i]], f);
  }

  /** `calculateTotals`: one pass over the list, adding each amount to the
      total and to the bucket of its payer. */
  method CalculateTotals(es: seq<Expense>) returns (totals: Totals)
    ensures totals == TotalsOf(es)
  {
    var total, leslie, ian := 0, 0, 0;
    var i := 0;
    while i < |es|
      invariant 0 <= i <= |es|
      invariant total == Sum(es[..i], AmountOf)
      invariant leslie == Sum(es[..i], LeslieShare)
      invariant ian == Sum(es[..i], IanShare)
    {
      var e := es[i];
      var amount := AmountOf(e);
      SumSnoc(es, i, AmountOf);
      SumSnoc(es, i, LeslieShare);
      SumSnoc(es, i, IanShare);
      total := total + amount;
      if IsLeslie(e) {
        leslie := leslie + amount;
      } else if IsIan(e) {
        ian := ian + amount;
      }
      i := i + 1;
    }
    assert es[..i] == es;
    var lesliePct := if total > 0 then Fixed(Tenths(leslie, total)) else Zero;
    var ianPct := if total > 0 then Fixed(Tenths(ian, total)) else Zero;
    var halfTotal := total as real / 2.0;
    var leslieOwes := if halfTotal - leslie as real > 0.0 then halfTotal - leslie as real else 0.0;
    var ianOwes := if halfTotal - ian as real > 0.0 then halfTotal - ian as real else 0.0;
    totals := Totals(total, leslie, ian, lesliePct, ianPct, leslieOwes, ianOwes);
  }

  lemma {:induction false} SumShares(es: seq<Expense>)
    ensures Sum(es, AmountOf) == Sum(es, LeslieShare) + Sum(es, IanShare) + Sum(es, UnassignedShare)
  {
    if es != [] {
      SumShares(es[1..]);
    }
  }

  lemma {:induction false} SumZero(es: seq<Expense>, f: Expense -> int)
    requires forall i :: 0 <= i < |es| ==> f(es[i]) == 0
    ensures Sum(es, f) == 0
  {
    if es != [] {
      SumZero(es[1..], f);
    }
  }

  /** The total is the leslie bucket plus the ian bucket plus the amounts whose
      payer is neither; when every payer is recognised the two buckets make up
      the whole total. */
  lemma BucketsPartitionTotal(es: seq<Expense>)
    ensures TotalsOf(es).total == TotalsOf(es).leslie + TotalsOf(es).ian + Sum(es, UnassignedShare)
    ensures (forall i :: 0 <= i < |es| ==> IsLeslie(es[i]) || IsIan(es[i]))
              ==> TotalsOf(es).total == TotalsOf(es).leslie + TotalsOf(es).ian
  {
    SumShares(es);
    if forall i :: 0 <= i < |es| ==> IsLeslie(es[i]) || IsIan(es[i]) {
      SumZero(es, UnassignedShare);
    }
  }

  /** With non-negative amounts, unrecognised payers can only add to the total. */
  lemma {:induction false} BucketsAtMostTotal(es: seq<Expense>)
    requires forall i :: 0 <= i < |es| ==> AmountOf(es[i]) >= 0
    ensures TotalsOf(es).leslie + TotalsOf(es).ian <= TotalsOf(es).total
  {
    SumShares(es);
    UnassignedNonNegative(es);
  }

  lemma {:induction false} UnassignedNonNegative(es: seq<Expense>)
    requires forall i :: 0 <= i < |es| ==> AmountOf(es[i]) >= 0
    ensures Sum(es, UnassignedShare) >= 0
  {
    if es != [] {
      UnassignedNonNegative(es[1..]);
    }
  }

  /** A record whose amount is not a number changes no figure of the totals. */
  lemma NonNumericContributesNothing(es: seq<Expense>, e: Expense)
    requires e.amount.None?
    ensures TotalsOf(es + [e]) == TotalsOf(es)
  {
    SumConcat(es, [e], AmountOf);
    SumConcat(es, [e], LeslieShare);
    SumConcat(es, [e], IanShare);
  }

  /** Each amount is counted once whatever the order of the list. */
  lemma TotalsIgnoreOrder(a: seq<Expense>, b: seq<Expense>)
    requires multiset(a) == multiset(b)
    ensures TotalsOf(a) == TotalsOf(b)
  {
    SumPermutation(a, b, AmountOf);
    SumPermutation(a, b, LeslieShare);
    SumPermutation(a, b, IanShare);
  }

  /** What each side owes is never negative; when every payer is recognised at
      most one side owes anything, and that is half the difference of the buckets. */
  lemma OwesSplit(es: seq<Expense>)
    ensures TotalsOf(es).leslieOwes >= 0.0 && TotalsOf(es).ianOwes >= 0.0
    ensures (forall i :: 0 <= i < |es| ==> IsLeslie(es[i]) || IsIan(es[i])) ==>
      var t := TotalsOf(es);
      && !(t.leslieOwes > 0.0 && t.ianOwes > 0.0)
      && (t.leslieOwes > 0.0 ==> t.leslieOwes == (t.ian - t.leslie) as real / 2.0)
      && (t.ianOwes > 0.0 ==> t.ianOwes == (t.leslie - t.ian) as real / 2.0)
  {
    BucketsPartitionTotal(es);
  }

  /** With a positive total from recognised payers and non-negative amounts,
      the two one-decimal percentages add up to 100.0 or 100.1, never less. */
  lemma PercentagesSum(es: seq<Expense>)
    requires forall i :: 0 <= i < |es| ==> IsLeslie(es[i]) || IsIan(es[i])
    requires forall i :: 0 <= i < |es| ==> AmountOf(es[i]) >= 0
    requires TotalsOf(es).total > 0
    ensures var t := TotalsOf(es);
      t.lesliePct.Fixed? && t.ianPct.Fixed? &&
      1000 <= t.lesliePct.tenths + t.ianPct.tenths <= 1001
  {
    BucketsPartitionTotal(es);
    AllSharesNonNegative(es);
    var t := TotalsOf(es);
    TenthsPairSum(t.total, t.leslie, t.ian);
  }

  lemma {:induction false} AllSharesNonNegative(es: seq<Expense>)
    requires forall i :: 0 <= i < |es| ==> AmountOf(es[i]) >= 0
    ensures Sum(es, LeslieShare) >= 0 && Sum(es, IanShare) >= 0
  {
    if es != [] {
      AllSharesNonNegative(es[1..]);
    }
  }

  /** Two non-negative parts of a positive whole round to 100.0 or 100.1 percent in all. */
  lemma TenthsPairSum(w: int, l: int, n: int)
    requires w > 0 && l >= 0 && n >= 0 && l + n == w
    ensures 1000 <= Tenths(l, w) + Tenths(n, w) <= 1001
  {
    var a, b := Tenths(l, w), Tenths(n, w);
    assert 2 * w * a - w <= 2000 * l < 2 * w * a + w;
    assert 2 * w * b - w <= 2000 * n < 2 * w * b + w;
    assert 2000 * l + 2000 * n == 2000 * w;
    assert 2 * w * (a + b) == 2 * w * a + 2 * w * b;
    SumBoundsTenths(w, a + b);
  }

  lemma SumBoundsTenths(w: int, s: int)
    requires w > 0
    requires 2 * w * s - 2 * w <= 2000 * w < 2 * w * s + 2 * w
    ensures 1000 <= s <= 1001
  {
    assert 2 * w * s - 2 * w == (2 * w) * (s - 1);
    assert 2 * w * s + 2 * w == (2 * w) * (s + 1);
    assert 2000 * w == (2 * w) * 1000;
    MulLeCancel(2 * w, s - 1, 1000);
    MulLtCancel(2 * w, 1000, s + 1);
  }

  lemma MulLeCancel(a: int, x: int, y: int)
    requires a > 0 && a * x <= a * y
    ensures x <= y
  {
  }

  lemma MulLtCancel(a: int, x: int, y: int)
    requires a > 0 && a * x < a * y
    ensures x < y
  {
  }

  /** $1.00 from Leslie and $15.00 from Ian: the percentages read 6.3 and 93.8,
      which add up to 100.1. */
  lemma PercentagesCanExceedHundred()
    ensures var es := [
        Expense("1", Some("Leslie"), Some(100), None, NoDate, None, NoStamp, NoStamp),
        Expense("2", Some("Ian"), Some(1500), None, NoDate, None, NoStamp, NoStamp)];
      TotalsOf(es).lesliePct == Fixed(63) && TotalsOf(es).ianPct == Fixed(938)
  {
    var es := [
        Expense("1", Some("Leslie"), Some(100), None, NoDate, None, NoStamp, NoStamp),
        Expense("2", Some("Ian"), Some(1500), None, NoDate, None, NoStamp, NoStamp)];
    assert Lower("Leslie") == "leslie";
    assert Lower("Ian") == "ian";
    assert es[1..][1..] == [];
  }

  // ---------------------------------------------------------------------------
  // Payer filter

  function PayerMatches(filter: string): Expense -> bool {
    e => PayerIs(e, Lower(filter))
  }

  /** `filterExpenses`: exactly "all" keeps the list; any other filter keeps the
      records whose payer equals it ignoring case, in their order. */
  function FilterExpenses(es: seq<Expense>, filter: string): (r: seq<Expense>)
    ensures filter == "all" ==> r == es
    ensures filter != "all" ==> forall i :: 0 <= i < |r| ==> PayerIs(r[i], Lower(filter))
  {
    if filter == "all" then es else Filter(es, PayerMatches(filter))
  }

  /** The payer filter selects a record: the filter is "all", or the record's
      payer equals it ignoring case. */
  predicate PayerSelected(filter: string, e: Expense) {
    filter == "all" || PayerIs(e, Lower(filter))
  }

  /** The payer filter keeps a record with its multiplicity exactly when it
      selects it, and keeps the order of the input. */
  lemma FilterExpensesSpec(es: seq<Expense>, filter: string)
    ensures forall e :: multiset(FilterExpenses(es, filter))[e] ==
                        if PayerSelected(filter, e) then multiset(es)[e] else 0
    ensures IsSubsequence(FilterExpenses(es, filter), es)
  {
    if filter == "all" {
      IsSubsequenceOfSelf(es);
    } else {
      FilterMultiset(es, PayerMatches(filter));
      FilterIsSubsequence(es, PayerMatches(filter));
    }
  }

  /** Filters differing only in letter case select the same records; "all" is
      the one spelling that is not compared to payers. */
  lemma FilterExpensesIgnoresCase(es: seq<Expense>, f: string, g: string)
    requires f != "all" && g != "all" && Lower(f) == Lower(g)
    ensures FilterExpenses(es, f) == FilterExpenses(es, g)
  {
    assert PayerMatches(f) == PayerMatches(g);
  }

  lemma FilterExpensesIdempotent(es: seq<Expense>, filter: string)
    ensures FilterExpenses(FilterExpenses(es, filter), filter) == FilterExpenses(es, filter)
  {
    if filter != "all" {
      FilterIdempotent(es, PayerMatches(filter));
    }
  }

  // ---------------------------------------------------------------------------
  // Date-range filter

  /** `Number(part)` for a piece of a date string split on '-': decimal digits
      give their value, the empty string gives 0, anything else NaN. */
  function NumberOf(s: string): (n: Num)
    ensures AllDigits(s) ==> n == Int(ParseDigits(s))
    ensures !AllDigits(s) ==> n == NaN
    ensures s == "" ==> n == Int(0)
  {
    if AllDigits(s) then Int(ParseDigits(s)) else NaN
  }

  function Part(parts: seq<string>, i: nat): Option<Num> {
    if i < |parts| then Some(NumberOf(parts[i])) else None
  }

  /** Arithmetic on a possibly missing number: `undefined - 1` is NaN. */
  function Minus1(n: Option<Num>): Num {
    if n.Some? && n.value.Int? then Int(n.value.v - 1) else NaN
  }

  function OrNaN(n: Option<Num>): Num {
    if n.Some? then n.value else NaN
  }

  /** `new Date(year, month - 1, day)` from `text.split('-').map(Number)`: a text
      without three '-'-separated parts, or with a part that is not all digits,
      is an invalid Date; a valid one is a local midnight. */
  function DateTextTime(text: string): (r: TimeValue)
    ensures var parts := Split(text, '-');
      (|parts| < 3 || exists i :: 0 <= i < 3 && !AllDigits(parts[i])) ==> r == Invalid
    ensures r.Time? ==> r.ms % MsPerDay == 0
  {
    var parts := Split(text, '-');
    NewDate(OrNaN(Part(parts, 0)), Minus1(Part(parts, 1)), OrNaN(Part(parts, 2)))
  }

  /** The Date the range filter compares, or None when the record is dropped
      outright (a falsy date, or one that is neither a string nor a Date). */
  function FilterDate(d: DateField): (r: Option<TimeValue>)
    ensures r.None? <==> d.NoDate? || d.OtherDate? || d == DateText("")
    ensures d.DateValue? ==> r == Some(d.time)
    ensures d.DateText? && d.text != "" ==> r == Some(DateTextTime(d.text))
  {
    match d
    case NoDate => None
    case DateText(s) => if s == "" then None else Some(DateTextTime(s))
    case DateValue(t) => Some(t)
    case OtherDate => None
  }

  /** `{start, end}`: each bound is a Date or null. */
  datatype DateRange = DateRange(start: Option<TimeValue>, end: Option<TimeValue>)

  /** The bound tests: a record is dropped when it is before `start` or after
      `end`; a comparison with an invalid Date is false, so it drops nothing. */
  predicate WithinBounds(t: TimeValue, range: DateRange) {
    !(range.start.Some? && Less(t, range.start.value)) &&
    !(range.end.Some? && Less(range.end.value, t))
  }

  predicate KeepInRange(range: DateRange, e: Expense) {
    var t := FilterDate(e.date);
    t.Some? && WithinBounds(t.value, range)
  }

  function InRange(range: DateRange): Expense -> bool {
    e => KeepInRange(range, e)
  }

  predicate NoBounds(range: Option<DateRange>) {
    range.None? || (range.value.start.None? && range.value.end.None?)
  }

  /** `filterByDateRange`: no range, or a range with both bounds null, keeps the
      list; otherwise keeps, in order, the records whose date is within it. */
  function FilterByDateRange(es: seq<Expense>, range: Option<DateRange>): (r: seq<Expense>)
    ensures NoBounds(range) ==> r == es
    ensures !NoBounds(range) ==> forall i :: 0 <= i < |r| ==> KeepInRange(range.value, r[i])
    ensures |r| <= |es|
  {
    if NoBounds(range) then es else Filter(es, InRange(range.value))
  }

  /** The date filter selects a record: there are no bounds, or its date is
      within them. */
  predicate DateSelected(range: Option<DateRange>, e: Expense) {
    NoBounds(range) || KeepInRange(range.value, e)
  }

  /** The filter keeps exactly the records it selects, with their multiplicities
      and in their order. When a bound is set, records without a usable date are
      dropped. */
  lemma FilterByDateRangeSpec(es: seq<Expense>, range: Option<DateRange>)
    ensures forall e :: multiset(FilterByDateRange(es, range))[e] ==
                        if DateSelected(range, e) then multiset(es)[e] else 0
    ensures IsSubsequence(FilterByDateRange(es, range), es)
    ensures !NoBounds(range) ==>
      forall e: Expense :: e.date.NoDate? || e.date.OtherDate? || e.date == DateText("") ==>
                           e !in FilterByDateRange(es, range)
  {
    if NoBounds(range) {
      IsSubsequenceOfSelf(es);
    } else {
      FilterMultiset(es, InRange(range.value));
      FilterIsSubsequence(es, InRange(range.value));
    }
  }

  /** A kept record with a valid time, against valid bounds, satisfies start <= t <= end. */
  lemma KeptIsBetween(range: DateRange, e: Expense)
    requires KeepInRange(range, e) && FilterDate(e.date).value.Time?
    ensures range.start.Some? && range.start.value.Time? ==> range.start.value.ms <= FilterDate(e.date).value.ms
    ensures range.end.Some? && range.end.value.Time? ==> FilterDate(e.date).value.ms <= range.end.value.ms
  {
  }

  lemma FilterByDateRangeIdempotent(es: seq<Expense>, range: Option<DateRange>)
    ensures FilterByDateRange(FilterByDateRange(es, range), range) == FilterByDateRange(es, range)
  {
    if !NoBounds(range) {
      FilterIdempotent(es, InRange(range.value));
    }
  }

  /** A "YYYY-MM-DD" text splits on '-' into its year, month and day parts. */
  lemma SplitIsoText(s: string)
    requires |s| == 10 && s[4] == '-' && s[7] == '-'
    requires AllDigits(s[..4]) && AllDigits(s[5..7]) && AllDigits(s[8..])
    ensures Split(s, '-') == [s[..4], s[5..7], s[8..]]
  {
    var parts := [s[..4], s[5..7], s[8..]];
    forall i | 0 <= i < 3 ensures '-' !in parts[i] {
      if '-' in parts[i] {
        var k :| 0 <= k < |parts[i]| && parts[i][k] == '-';
      }
    }
    assert Join(parts[2..], "-") == s[8..];
    assert Join(parts[1..], "-") == s[5..7] + "-" + s[8..];
    assert s == s[..4] + "-" + (s[5..7] + "-" + s[8..]);
    SplitJoin(parts, '-');
  }

  /** A well-formed "YYYY-MM-DD" string from year 100 on is read as local
      midnight of that calendar day. */
  lemma IsoTextTime(s: string)
    requires ParseIsoDate(s).Some? && ParseIsoDate(s).value.year >= 100
    ensures DateTextTime(s) == Time(Midnight(DayNumber(ParseIsoDate(s).value)))
  {
    var d := ParseIsoDate(s).value;
    SplitIsoText(s);
    DayNumberBounds(d);
    assert d.month / 12 == 0 && d.month % 12 == d.month;
  }

  // ---------------------------------------------------------------------------
  // CSV export

  /** The decimal text JavaScript prints for an amount of `c` cents
      (`String(number)`): no trailing zeros, no decimal point for whole amounts. */
  function AmountText(c: int): (s: string)
    ensures |s| >= 1
  {
    var a := if c < 0 then -c else c;
    var frac := a % 100;
    var fracText :=
      if frac == 0 then ""
      else if frac % 10 == 0 then "." + [DigitChar(frac / 10)]
      else "." + PadDigits(frac, 2);
    (if c < 0 then "-" else "") + NatText(a / 100) + fracText
  }

  /** `s.replace(',', '')`: the first comma removed. */
  function RemoveFirstComma(s: string): (r: string)
    ensures ',' in s ==> |r| == |s| - 1 && r == s[..IndexOf(s, ',')] + s[IndexOf(s, ',') + 1..]
    ensures ',' !in s ==> r == s
  {
    if ',' in s then var k := IndexOf(s, ','); s[..k] + s[k + 1..] else s
  }

  /** The Date column. A string containing '-' is written as is; an empty or
      missing date is empty; another string reads as an invalid date; a Date
      object is written by the locale formatter, first comma removed. */
  function DateCell(d: DateField, localeDate: TimeValue -> string): (r: string)
    ensures d.DateText? && '-' in d.text ==> r == d.text
    ensures d.NoDate? || d.OtherDate? || d == DateText("") ==> r == ""
    ensures d.DateText? && d.text != "" && '-' !in d.text ==> r == "Invalid Date"
    ensures d.DateValue? ==> r == RemoveFirstComma(localeDate(d.time))
    ensures d.DateValue? && ',' !in localeDate(d.time) ==> r == localeDate(d.time)
  {
    match d
    case NoDate => ""
    case DateText(s) => if '-' in s then s else if s == "" then "" else "Invalid Date"
    case DateValue(t) => RemoveFirstComma(localeDate(t))
    case OtherDate => ""
  }

  function OrEmpty(s: Option<string>): string {
    if s.Some? then s.value else ""
  }

  const CsvHeader: string := "Date,Payer,Amount,Description,Note"

  /** The five cells of an expense's CSV row. */
  function RowCells(e: Expense, localeDate: TimeValue -> string): (cells: seq<string>)
    ensures |cells| == 5
    ensures cells[3] == QuoteCell(OrEmpty(e.description))
    ensures cells[4] == QuoteCell(OrEmpty(e.note))
    ensures cells[1] == OrEmpty(e.payer)
  {
    [DateCell(e.date, localeDate),
     OrEmpty(e.payer),
     if e.amount.Some? && e.amount.value != 0 then AmountText(e.amount.value) else "0",
     QuoteCell(OrEmpty(e.description)),
     QuoteCell(OrEmpty(e.note))]
  }

  function Rows(es: seq<Expense>, localeDate: TimeValue -> string): (rows: seq<string>)
    ensures |rows| == |es|
    ensures forall i :: 0 <= i < |es| ==> rows[i] == Join(RowCells(es[i], localeDate), ",")
  {
    if es == [] then [] else [Join(RowCells(es[0], localeDate), ",")] + Rows(es[1..], localeDate)
  }

  datatype CsvFile = CsvFile(content: string, fileName: string)

  /** `exportToCSV`: None (null) for a missing or empty list; otherwise the CSV
      text and the download file name. `today` is the current UTC date and
      `localeDate` the `toLocaleDateString` formatter. */
  function ExportToCsv(es: Option<seq<Expense>>, filterName: string, today: Date,
                       localeDate: TimeValue -> string): (r: Option<CsvFile>)
    requires ValidDate(today) && -271821 <= today.year <= 275760
    ensures r.None? <==> es.None? || es.value == []
    ensures r.Some? ==> r.value.content == Join([CsvHeader] + Rows(es.value, localeDate), "\n")
  {
    if es.None? || es.value == [] then None
    else
      var suffix := if filterName == "all" then "all" else Lower(filterName);
      var fileName := "sofia-expenses-" + suffix + "-" + IsoDateText(today) + ".csv";
      Some(CsvFile(Join([CsvHeader] + Rows(es.value, localeDate), "\n"), fileName))
  }

  /** The file name is "sofia-expenses-", the lower-cased filter ("all" for
      "all"), '-', today's ISO date and ".csv"; the name part reads the same
      after lower-casing again. */
  lemma ExportFileName(es: seq<Expense>, filterName: string, today: Date, localeDate: TimeValue -> string)
    requires ValidDate(today) && -271821 <= today.year <= 275760 && es != []
    ensures var r := ExportToCsv(Some(es), filterName, today, localeDate);
      var suffix := if filterName == "all" then "all" else Lower(filterName);
      && r.Some?
      && r.value.fileName == "sofia-expenses-" + suffix + "-" + IsoDateText(today) + ".csv"
      && Lower(suffix) == suffix
  {
    LowerIdempotent(filterName);
    assert Lower("all") == "all";
  }

  predicate NoNewline(s: string) { '\n' !in s }

  predicate RowSafe(e: Expense, localeDate: TimeValue -> string) {
    forall i :: 0 <= i < 5 ==> NoNewline(RowCells(e, localeDate)[i])
  }

  lemma {:induction false} JoinNoChar(parts: seq<string>, sep: string, c: char)
    requires forall i :: 0 <= i < |parts| ==> c !in parts[i]
    requires c !in sep
    ensures c !in Join(parts, sep)
  {
    if |parts| > 1 {
      JoinNoChar(parts[1..], sep, c);
    }
  }

  /** When no cell holds a line break, the text splits into the header line
      followed by one line per expense, in list order. */
  lemma CsvLines(es: seq<Expense>, localeDate: TimeValue -> string)
    requires forall i :: 0 <= i < |es| ==> RowSafe(es[i], localeDate)
    ensures Split(Join([CsvHeader] + Rows(es, localeDate), "\n"), '\n') == [CsvHeader] + Rows(es, localeDate)
  {
    HeaderLine();
    LinesWithHeader(CsvHeader, es, localeDate);
  }

  lemma LinesWithHeader(h: string, es: seq<Expense>, localeDate: TimeValue -> string)
    requires '\n' !in h
    requires forall i :: 0 <= i < |es| ==> RowSafe(es[i], localeDate)
    ensures Split(Join([h] + Rows(es, localeDate), "\n"), '\n') == [h] + Rows(es, localeDate)
  {
    var rows := Rows(es, localeDate);
    RowsNoNewline(es, localeDate);
    LinesNoNewline(h, rows);
    SplitLines([h] + rows);
  }

  lemma SplitLines(lines: seq<string>)
    requires |lines| >= 1
    requires forall i :: 0 <= i < |lines| ==> '\n' !in lines[i]
    ensures Split(Join(lines, "\n"), '\n') == lines
  {
    SplitJoin(lines, '\n');
  }

  lemma LinesNoNewline(h: string, rows: seq<string>)
    requires '\n' !in h && forall i :: 0 <= i < |rows| ==> '\n' !in rows[i]
    ensures forall i :: 0 <= i < |[h] + rows| ==> '\n' !in ([h] + rows)[i]
  {
  }

  lemma {:induction false} RowsNoNewline(es: seq<Expense>, localeDate: TimeValue -> string)
    requires forall i :: 0 <= i < |es| ==> RowSafe(es[i], localeDate)
    ensures forall i :: 0 <= i < |es| ==> '\n' !in Rows(es, localeDate)[i]
  {
    forall i | 0 <= i < |es| ensures '\n' !in Rows(es, localeDate)[i] {
      RowLine(es[i], localeDate);
    }
  }

  lemma HeaderLine()
    ensures '\n' !in CsvHeader
  {
    assert forall k :: 0 <= k < |CsvHeader| ==> CsvHeader[k] != '\n';
  }

  lemma RowLine(e: Expense, localeDate: TimeValue -> string)
    requires RowSafe(e, localeDate)
    ensures '\n' !in Join(RowCells(e, localeDate), ",")
  {
    var cells := RowCells(e, localeDate);
    assert forall j :: 0 <= j < |cells| ==> '\n' !in cells[j];
    JoinNoChar(cells, ",", '\n');
  }

  /** When no cell holds a comma, a row splits back into its five cells and the
      description and note cells un-quote to the record's texts. */
  lemma CsvRowRoundTrip(e: Expense, localeDate: TimeValue -> string)
    requires forall i :: 0 <= i < 5 ==> ',' !in RowCells(e, localeDate)[i]
    ensures var cells := Split(Join(RowCells(e, localeDate), ","), ',');
      && cells == RowCells(e, localeDate)
      && UnquoteCell(cells[3]) == Some(OrEmpty(e.description))
      && UnquoteCell(cells[4]) == Some(OrEmpty(e.note))
  {
    SplitJoin(RowCells(e, localeDate), ',');
    QuoteCellRoundTrip(OrEmpty(e.description));
    QuoteCellRoundTrip(OrEmpty(e.note));
  }

  // ---------------------------------------------------------------------------
  // Snapshot normalisation and ordering

  /** `(m || 1)`: a missing, zero or NaN month or day counts as 1. */
  function OrOne(n: Option<Num>): (r: int)
    ensures r != 0
  {
    if n.Some? && n.value.Int? && n.value.v != 0 then n.value.v else 1
  }

  /** `new Date(y, (m || 1) - 1, d || 1)` from the record's date string: a
      missing, empty or zero month or day counts as 1, so a bare year reads as
      January 1; a year part that is not all digits gives an invalid Date. */
  function SnapshotDateTime(text: string): (r: TimeValue)
    ensures var parts := Split(text, '-');
      |parts| == 1 && AllDigits(parts[0]) ==> r == NewDate(Int(ParseDigits(parts[0])), Int(0), Int(1))
    ensures !AllDigits(Split(text, '-')[0]) ==> r == Invalid
    ensures r.Time? ==> r.ms % MsPerDay == 0
  {
    var parts := Split(text, '-');
    NewDate(OrNaN(Part(parts, 0)), Int(OrOne(Part(parts, 1)) - 1), Int(OrOne(Part(parts, 2))))
  }

  /** The normalised timestamp: the Firestore `timestamp`, else the Firestore
      `createdAt`, else the date string read at local midnight, else now. */
  function NormalizedTime(e: Expense, now: int): (t: TimeValue)
    ensures e.timestamp.FirestoreStamp? ==> t == e.timestamp.at
    ensures !e.timestamp.FirestoreStamp? && e.createdAt.FirestoreStamp? ==> t == e.createdAt.at
    ensures !e.timestamp.FirestoreStamp? && !e.createdAt.FirestoreStamp? && e.date.DateText? ==>
      t == SnapshotDateTime(e.date.text)
    ensures !e.timestamp.FirestoreStamp? && !e.createdAt.FirestoreStamp? && !e.date.DateText? ==>
      t == Time(now)
  {
    match e.timestamp
    case FirestoreStamp(t) => t
    case _ =>
      match e.createdAt
      case FirestoreStamp(t) => t
      case _ =>
        match e.date
        case DateText(s) => SnapshotDateTime(s)
        case _ => Time(now)
  }

  /** A snapshot document with its timestamp replaced by the normalised Date;
      every other field as stored. */
  function Normalized(e: Expense, now: int): (r: Expense)
    ensures r.timestamp == DateStamp(NormalizedTime(e, now))
    ensures r.id == e.id && r.payer == e.payer && r.amount == e.amount && r.description == e.description
    ensures r.date == e.date && r.note == e.note && r.createdAt == e.createdAt
  {
    e.(timestamp := DateStamp(NormalizedTime(e, now)))
  }

  function NormalizeAll(docs: seq<Expense>, now: int): (r: seq<Expense>)
    ensures |r| == |docs|
    ensures forall i :: 0 <= i < |docs| ==> r[i] == Normalized(docs[i], now)
  {
    if docs == [] then [] else [Normalized(docs[0], now)] + NormalizeAll(docs[1..], now)
  }

  /** `timestamp?.getTime?.() ?? 0`: a Date's time value (NaN when invalid),
      0 for a field without `getTime`. */
  function SortKey(e: Expense): Num {
    match e.timestamp
    case DateStamp(Time(ms)) => Int(ms)
    case DateStamp(Invalid) => NaN
    case _ => Int(0)
  }

  /** The comparator `(a, b) => key(b) - key(a)` does not put `b` before `a`.
      A NaN difference counts as "equal". */
  predicate NewerOrSame(a: Expense, b: Expense) {
    !(SortKey(a).Int? && SortKey(b).Int? && SortKey(b).v > SortKey(a).v)
  }

  function NewestFirst(): (le: (Expense, Expense) -> bool)
    ensures forall a, b :: SortKey(a).Int? && SortKey(b).Int? ==> (le(a, b) <==> SortKey(b).v <= SortKey(a).v)
    ensures forall a, b :: SortKey(a).NaN? || SortKey(b).NaN? ==> le(a, b)
  {
    (a, b) => NewerOrSame(a, b)
  }

  /** The snapshot handler: builds the normalised list in snapshot order, then
      sorts it newest first. */
  method NormalizeSnapshot(docs: seq<Expense>, now: int) returns (expenses: seq<Expense>)
    ensures expenses == SortBy(NormalizeAll(docs, now), NewestFirst())
  {
    var list := [];
    var i := 0;
    while i < |docs|
      invariant 0 <= i <= |docs|
      invariant list == NormalizeAll(docs[..i], now)
    {
      NormalizeAllSnoc(docs, i, now);
      list := list + [Normalized(docs[i], now)];
      i := i + 1;
    }
    assert docs[..i] == docs;
    expenses := SortBy(list, NewestFirst());
  }

  lemma NormalizeAllSnoc(docs: seq<Expense>, i: nat, now: int)
    requires i < |docs|
    ensures NormalizeAll(docs[..i + 1], now) == NormalizeAll(docs[..i], now) + [Normalized(docs[i], now)]
  {
    var a := NormalizeAll(docs[..i + 1], now);
    var b := NormalizeAll(docs[..i], now) + [Normalized(docs[i], now)];
    assert |a| == |b|;
    forall k | 0 <= k < |a| ensures a[k] == b[k] {
      assert docs[..i + 1][k] == docs[k];
      if k < i {
        assert docs[..i][k] == docs[k];
      }
    }
  }

  /** The sorted list holds exactly the normalised records. */
  lemma SnapshotIsPermutation(docs: seq<Expense>, now: int)
    ensures multiset(SortBy(NormalizeAll(docs, now), NewestFirst())) == multiset(NormalizeAll(docs, now))
  {
  }

  /** When every normalised timestamp is a valid time, the list runs from the
      newest timestamp to the oldest. */
  lemma SnapshotNewestFirst(docs: seq<Expense>, now: int)
    requires forall i :: 0 <= i < |docs| ==> NormalizedTime(docs[i], now).Time?
    ensures var r := SortBy(NormalizeAll(docs, now), NewestFirst());
      forall i, j :: 0 <= i < j < |r| ==>
        SortKey(r[i]).Int? && SortKey(r[j]).Int? && SortKey(r[j]).v <= SortKey(r[i]).v
  {
    var s := NormalizeAll(docs, now);
    NormalizedKeys(docs, now);
    NewestFirstPreorder(s);
    SortBySorted(s, NewestFirst());
    var r := SortBy(s, NewestFirst());
    forall i | 0 <= i < |r| ensures SortKey(r[i]).Int? {
      assert r[i] in multiset(s);
    }
  }

  lemma NormalizedKeys(docs: seq<Expense>, now: int)
    requires forall i :: 0 <= i < |docs| ==> NormalizedTime(docs[i], now).Time?
    ensures forall e :: e in NormalizeAll(docs, now) ==> SortKey(e).Int?
  {
    var s := NormalizeAll(docs, now);
    forall e | e in s ensures SortKey(e).Int? {
      var k :| 0 <= k < |s| && s[k] == e;
    }
  }

  lemma NewestFirstPreorder(s: seq<Expense>)
    requires forall e :: e in s ==> SortKey(e).Int?
    ensures TotalPreorderOn(s, NewestFirst())
  {
  }

  /** Records with the same time value keep their snapshot order. */
  lemma SnapshotStable(docs: seq<Expense>, now: int, ms: int)
    ensures var s := NormalizeAll(docs, now);
      Filter(SortBy(s, NewestFirst()), e => SortKey(e) == Int(ms)) == Filter(s, e => SortKey(e) == Int(ms))
  {
    var s := NormalizeAll(docs, now);
    SortByStable(s, NewestFirst(), e => SortKey(e) == Int(ms));
  }

  // ---------------------------------------------------------------------------
  // Adding an expense

  /** The record `addExpense` writes: the input fields, the amount as parsed,
      the date defaulting to `today` in ISO form, the note defaulting to "", and
      both stamps set to the time of writing. */
  function NewExpenseData(input: Expense, today: Date, now: int): (r: Expense)
    requires ValidDate(today) && -271821 <= today.year <= 275760
    ensures r.id == input.id && r.payer == input.payer && r.amount == input.amount
    ensures r.description == input.description
    ensures input.date.NoDate? || input.date == DateText("") ==> r.date == DateText(IsoDateText(today))
    ensures !(input.date.NoDate? || input.date == DateText("")) ==> r.date == input.date
    ensures input.note.None? ==> r.note == Some("")
    ensures input.note.Some? ==> r.note == input.note
    ensures r.timestamp == FirestoreStamp(Time(now)) && r.createdAt == FirestoreStamp(Time(now))
  {
    input.(
      date := if input.date.NoDate? || input.date == DateText("") then DateText(IsoDateText(today)) else input.date,
      note := if input.note.None? || input.note == Some("") then Some("") else input.note,
      timestamp := FirestoreStamp(Time(now)),
      createdAt := FirestoreStamp(Time(now)))
  }
}
