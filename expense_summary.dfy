/** The summary card: the balance message with its one-cent tolerance, the
    per-payer targets and the percentage badges. It works on the whole list
    it is given; no date range enters it. */
module ExpenseSummary {
  import opened Text
  import opened Seqs
  import opened ExpenseService

  /** The balance line and the amount it names, in cents. */
  datatype Balance = LeslieOwesIan(amount: real) | IanOwesLeslie(amount: real) | Balanced

  /** `getBalanceMessage`: an amount owed above $0.01 (one cent) is reported,
      Leslie's first; anything smaller reads as balanced. */
  function BalanceMessage(t: Totals): (b: Balance)
    ensures b.LeslieOwesIan? <==> t.leslieOwes > 1.0
    ensures b.IanOwesLeslie? <==> t.leslieOwes <= 1.0 && t.ianOwes > 1.0
    ensures b.LeslieOwesIan? ==> b.amount == t.leslieOwes
    ensures b.IanOwesLeslie? ==> b.amount == t.ianOwes
  {
    if t.leslieOwes > 1.0 then LeslieOwesIan(t.leslieOwes)
    else if t.ianOwes > 1.0 then IanOwesLeslie(t.ianOwes)
    else Balanced
  }

  predicate AllRecognised(es: seq<Expense>) {
    forall i :: 0 <= i < |es| ==> IsLeslie(es[i]) || IsIan(es[i])
  }

  /** With every payer recognised, the message depends only on the difference
      of the two buckets: balanced exactly when they differ by at most two
      cents, otherwise the side that paid less owes half the difference. */
  lemma BalanceByDifference(es: seq<Expense>)
    requires AllRecognised(es)
    ensures var t := TotalsOf(es);
      var b := BalanceMessage(t);
      && (b.Balanced? <==> -2 <= t.leslie - t.ian <= 2)
      && (b.LeslieOwesIan? <==> t.ian - t.leslie > 2)
      && (b.IanOwesLeslie? <==> t.leslie - t.ian > 2)
      && (!b.Balanced? ==> 2.0 * b.amount == (if b.LeslieOwesIan? then t.ian - t.leslie else t.leslie - t.ian) as real)
  {
    OwesSplit(es);
    BucketsPartitionTotal(es);
  }

  /** The per-payer cards: amount, badge (None when hidden) and target. */
  datatype PayerCard = PayerCard(amount: int, badge: Option<int>, target: real)

  /** The percentage badge is rendered when the percentage is truthy: the text
      of `toFixed(1)`, even "0.0", is; the number 0 is not. */
  function Badge(p: Percent): (b: Option<int>)
    ensures b.Some? <==> p.Fixed?
    ensures b.Some? ==> b.value == p.tenths
  {
    if p.Fixed? then Some(p.tenths) else None
  }

  /** Leslie's card: her bucket, a badge exactly when her percentage is text,
      and half the total as target. */
  function LeslieCard(t: Totals): (c: PayerCard)
    ensures c.amount == t.leslie && c.target == t.total as real / 2.0
    ensures c.badge.Some? <==> t.lesliePct.Fixed?
    ensures c.badge.Some? ==> c.badge.value == t.lesliePct.tenths
  {
    PayerCard(t.leslie, Badge(t.lesliePct), t.total as real / 2.0)
  }

  /** Ian's card: his bucket, a badge exactly when his percentage is text, and
      half the total as target. */
  function IanCard(t: Totals): (c: PayerCard)
    ensures c.amount == t.ian && c.target == t.total as real / 2.0
    ensures c.badge.Some? <==> t.ianPct.Fixed?
    ensures c.badge.Some? ==> c.badge.value == t.ianPct.tenths
  {
    PayerCard(t.ian, Badge(t.ianPct), t.total as real / 2.0)
  }

  /** Both cards show half the total as target; the badges are shown exactly
      when the total is positive, and a payer who owes something reaches the
      target by paying what the balance line says. */
  lemma CardsSpec(es: seq<Expense>)
    ensures var t := TotalsOf(es);
      && LeslieCard(t).target == IanCard(t).target == t.total as real / 2.0
      && (LeslieCard(t).badge.Some? <==> t.total > 0)
      && (IanCard(t).badge.Some? <==> t.total > 0)
      && (t.leslieOwes > 0.0 ==> t.leslie as real + t.leslieOwes == LeslieCard(t).target)
      && (t.ianOwes > 0.0 ==> t.ian as real + t.ianOwes == IanCard(t).target)
  {
  }

  /** A positive total whose bucket is 0 still shows a "0.0" badge. */
  lemma ZeroBadgeShown(es: seq<Expense>)
    requires TotalsOf(es).total > 0 && TotalsOf(es).leslie == 0
    ensures LeslieCard(TotalsOf(es)).badge == Some(0)
  {
    var w := TotalsOf(es).total;
    var x := Tenths(0, w);
    assert (2 * w) * x <= w < (2 * w) * 1;
    MulLtCancel(2 * w, x, 1);
    assert (2 * w) * -1 < (2 * w) * x;
    MulLtCancel(2 * w, -1, x);
  }
}
