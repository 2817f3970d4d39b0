/** The tuition payment schedule and the "next payment due" logic. Each due
    date is read as local midnight of that day. */
module PaymentSchedule {
  import opened Text
  import opened JsDate
  import opened Seqs
  import opened Sorting

  datatype Payment = Payment(date: Date, description: string, amount: int)

  /** The 2025-2026 schedule: dining and housing on the first of each month
      from October to April (months 0-based, amounts in cents). */
  const Schedule: seq<Payment> := [
    Payment(Date(2025, 9, 1), "Dining", 71000),
    Payment(Date(2025, 9, 1), "Housing", 143900),
    Payment(Date(2025, 10, 1), "Dining", 75500),
    Payment(Date(2025, 10, 1), "Housing", 143900),
    Payment(Date(2025, 11, 1), "Dining", 75500),
    Payment(Date(2025, 11, 1), "Housing", 125300),
    Payment(Date(2026, 0, 1), "Dining", 75500),
    Payment(Date(2026, 0, 1), "Housing", 125300),
    Payment(Date(2026, 1, 1), "Dining", 75500),
    Payment(Date(2026, 1, 1), "Housing", 125300),
    Payment(Date(2026, 2, 1), "Dining", 75500),
    Payment(Date(2026, 2, 1), "Housing", 123800),
    Payment(Date(2026, 3, 1), "Dining", 75500),
    Payment(Date(2026, 3, 1), "Housing", 123800)
  ]

  /** Every entry of the schedule is a real calendar date. */
  lemma ScheduleDatesValid()
    ensures forall i :: 0 <= i < |Schedule| ==> ValidDate(Schedule[i].date)
  {
  }

  /** `new Date(payment.date)`: local midnight of the due date. */
  function DueTime(p: Payment): int {
    Midnight(DayNumber(p.date))
  }

  function IsFuture(now: int): Payment -> bool {
    p => DueTime(p) > now
  }

  /** The comparator `a.dateObj - b.dateObj`: `a` may stay before `b`. */
  function EarlierFirst(): (Payment, Payment) -> bool {
    (a, b) => DueTime(a) <= DueTime(b)
  }

  /** `toDateString()` equality: the same local calendar day. */
  function SameDayAs(t: int): Payment -> bool {
    p => DateOf(DueTime(p)) == DateOf(t)
  }

  /** The future payments, earliest due first. */
  function FuturePayments(schedule: seq<Payment>, now: int): (r: seq<Payment>)
    ensures multiset(r) == multiset(Filter(schedule, IsFuture(now)))
    ensures forall i :: 0 <= i < |r| ==> DueTime(r[i]) > now
  {
    var future := Filter(schedule, IsFuture(now));
    var r := SortBy(future, EarlierFirst());
    assert forall i :: 0 <= i < |r| ==> r[i] in multiset(r);
    assert forall i :: 0 <= i < |r| ==> r[i] in future;
    r
  }

  /** `getNextPaymentsDue`: the future payments due on the day of the earliest one. */
  function NextPaymentsDue(schedule: seq<Payment>, now: int): (r: seq<Payment>)
    ensures |r| <= |schedule|
  {
    var future := FuturePayments(schedule, now);
    if |future| == 0 then []
    else
      assert |Filter(schedule, IsFuture(now))| <= |schedule|;
      Filter(future, SameDayAs(DueTime(future[0])))
  }

  lemma FutureSpec(schedule: seq<Payment>, now: int)
    ensures var future := FuturePayments(schedule, now);
      && (forall p :: multiset(future)[p] == if DueTime(p) > now then multiset(schedule)[p] else 0)
      && SortedBy(future, EarlierFirst())
  {
    var f := Filter(schedule, IsFuture(now));
    FilterMultiset(schedule, IsFuture(now));
    SortBySorted(f, EarlierFirst());
  }

  /** The earliest future payment is due no later than any future entry. */
  lemma FirstIsEarliest(schedule: seq<Payment>, now: int, p: Payment)
    requires p in schedule && DueTime(p) > now
    ensures var future := FuturePayments(schedule, now);
      future != [] && DueTime(future[0]) <= DueTime(p)
  {
    var future := FuturePayments(schedule, now);
    FutureSpec(schedule, now);
    assert p in multiset(future);
    var j :| 0 <= j < |future| && future[j] == p;
    if j > 0 {
      assert EarlierFirst()(future[0], future[j]);
    }
  }

  /** All returned payments fall on one calendar day. */
  lemma NextPaymentsSameDay(schedule: seq<Payment>, now: int)
    requires NextPaymentsDue(schedule, now) != []
    ensures var r := NextPaymentsDue(schedule, now);
      forall i :: 0 <= i < |r| ==> DateOf(DueTime(r[i])) == DateOf(DueTime(r[0]))
  {
    var future := FuturePayments(schedule, now);
    var r := NextPaymentsDue(schedule, now);
    assert forall i :: 0 <= i < |r| ==> SameDayAs(DueTime(future[0]))(r[i]);
  }

  /** Each returned payment is due strictly after now. */
  lemma NextPaymentsInFuture(schedule: seq<Payment>, now: int)
    ensures var r := NextPaymentsDue(schedule, now);
      forall i :: 0 <= i < |r| ==> DueTime(r[i]) > now
  {
    var r := NextPaymentsDue(schedule, now);
    var future := FuturePayments(schedule, now);
    if future != [] {
      FutureSpec(schedule, now);
      FilterMultiset(future, SameDayAs(DueTime(future[0])));
      forall i | 0 <= i < |r| ensures DueTime(r[i]) > now {
        assert r[i] in multiset(r);
        assert r[i] in multiset(future);
      }
    }
  }

  /** The returned day is the earliest: no future entry is due before it. */
  lemma NextPaymentsEarliest(schedule: seq<Payment>, now: int, p: Payment)
    requires NextPaymentsDue(schedule, now) != []
    requires p in schedule && DueTime(p) > now
    ensures DueTime(NextPaymentsDue(schedule, now)[0]) <= DueTime(p)
  {
    var r := NextPaymentsDue(schedule, now);
    var future := FuturePayments(schedule, now);
    FirstIsEarliest(schedule, now, p);
    assert SameDayAs(DueTime(future[0]))(r[0]);
    DueTimeIsMidnight(r[0]);
    DueTimeIsMidnight(future[0]);
    SameDayNotBefore(DueTime(r[0]), DueTime(future[0]));
  }

  lemma DueTimeIsMidnight(p: Payment)
    ensures DueTime(p) % MsPerDay == 0
  {
  }

  /** Every future entry due on the returned day is returned, as many times as
      it occurs in the schedule. */
  lemma NextPaymentsComplete(schedule: seq<Payment>, now: int, p: Payment)
    requires NextPaymentsDue(schedule, now) != []
    requires DueTime(p) > now && DateOf(DueTime(p)) == DateOf(DueTime(NextPaymentsDue(schedule, now)[0]))
    ensures multiset(NextPaymentsDue(schedule, now))[p] == multiset(schedule)[p]
  {
    var r := NextPaymentsDue(schedule, now);
    var future := FuturePayments(schedule, now);
    FutureSpec(schedule, now);
    FilterMultiset(future, SameDayAs(DueTime(future[0])));
    assert SameDayAs(DueTime(future[0]))(r[0]);
  }

  /** Two midnights on the same calendar day are the same time value. */
  lemma SameDayNotBefore(a: int, b: int)
    requires a % MsPerDay == 0 && b % MsPerDay == 0 && DateOf(a) == DateOf(b)
    ensures a == b
  {
    assert DayOf(a) == DayOf(b) by {
      assert DayNumber(DateOf(a)) == DayOf(a) && DayNumber(DateOf(b)) == DayOf(b);
    }
  }

  /** Nothing is returned exactly when no schedule entry is in the future. */
  lemma NextPaymentsDueEmpty(schedule: seq<Payment>, now: int)
    ensures NextPaymentsDue(schedule, now) == [] <==> forall i :: 0 <= i < |schedule| ==> DueTime(schedule[i]) <= now
  {
    var future := FuturePayments(schedule, now);
    FutureSpec(schedule, now);
    if future != [] {
      var first := future[0];
      assert first in multiset(future);
      assert first in schedule && DueTime(first) > now;
      FilterMultiset(future, SameDayAs(DueTime(first)));
      assert first in multiset(NextPaymentsDue(schedule, now));
    } else {
      forall i | 0 <= i < |schedule| ensures DueTime(schedule[i]) <= now {
        assert multiset(future)[schedule[i]] == 0;
      }
    }
  }

  /** `Math.ceil(diff / msPerDay)` for an integer count of milliseconds. */
  function CeilDays(diff: int): (d: int)
    ensures (d - 1) * MsPerDay < diff <= d * MsPerDay
  {
    (diff + MsPerDay - 1) / MsPerDay
  }

  /** `getDaysUntilNextPayment`: 0 when nothing is due, otherwise the whole
      days, rounded up, from now to the next due date. */
  function DaysUntilNextPayment(schedule: seq<Payment>, now: int): (d: int)
    ensures NextPaymentsDue(schedule, now) == [] ==> d == 0
    ensures NextPaymentsDue(schedule, now) != [] ==>
      var diff := DueTime(NextPaymentsDue(schedule, now)[0]) - now;
      (d - 1) * MsPerDay < diff <= d * MsPerDay
  {
    var next := NextPaymentsDue(schedule, now);
    if next == [] then 0 else CeilDays(DueTime(next[0]) - now)
  }

  /** When a payment is due the count is at least one day. */
  lemma DaysUntilAtLeastOne(schedule: seq<Payment>, now: int)
    requires NextPaymentsDue(schedule, now) != []
    ensures DaysUntilNextPayment(schedule, now) >= 1
  {
    NextPaymentsInFuture(schedule, now);
  }
}
