/** The payment-history card of the billing page: the payments listed with a status
    badge each, the number of payments and the total spent. */
module PaymentHistory {
  import opened Wrappers
  import opened Strings

  /** Amounts are whole rupees; the date is an opaque timestamp string. */
  datatype PaymentRecord = PaymentRecord(
    id: string, amount: int, status: string, date: string, plan: string,
    paymentMethod: string, transactionId: Option<string>)

  datatype StatusBadge = Completed | Pending | Failed | Verbatim(text: string)

  /** `getStatusBadge`: the status is matched after lower-casing; an unknown one is
      shown as it came. */
  function StatusLabel(status: string): (r: StatusBadge)
    ensures r == Completed <==> ToLower(status) == "completed" || ToLower(status) == "success"
    ensures r == Pending <==> ToLower(status) == "pending"
    ensures r == Failed <==> ToLower(status) == "failed"
    ensures r.Verbatim? ==> r.text == status
  {
    match ToLower(status)
    case "completed" => Completed
    case "success" => Completed
    case "pending" => Pending
    case "failed" => Failed
    case _ => Verbatim(status)
  }

  /** Statuses that differ only in ASCII case get the same badge, unless it is the
      verbatim one. */
  lemma StatusCaseInsensitive(a: string, b: string)
    requires ToLower(a) == ToLower(b)
    ensures StatusLabel(a).Verbatim? <==> StatusLabel(b).Verbatim?
    ensures !StatusLabel(a).Verbatim? ==> StatusLabel(a) == StatusLabel(b)
  {
  }

  /** The total spent: the amounts summed from the left. */
  function TotalSpent(payments: seq<PaymentRecord>): int
    decreases |payments|
  {
    if |payments| == 0 then 0
    else TotalSpent(payments[..|payments| - 1]) + payments[|payments| - 1].amount
  }

  /** The total of two lists together is the sum of their totals. */
  lemma {:induction false} TotalSpentAppend(a: seq<PaymentRecord>, b: seq<PaymentRecord>)
    ensures TotalSpent(a + b) == TotalSpent(a) + TotalSpent(b)
    decreases |b|
  {
    if |b| > 0 {
      assert (a + b)[..|a + b| - 1] == a + b[..|b| - 1];
      TotalSpentAppend(a, b[..|b| - 1]);
    } else {
      assert a + b == a;
    }
  }

  /** No payment of a negative amount, no negative total, and no total below any one
      payment. */
  lemma {:induction false} TotalSpentBounds(payments: seq<PaymentRecord>)
    requires forall k :: 0 <= k < |payments| ==> payments[k].amount >= 0
    ensures TotalSpent(payments) >= 0
    ensures forall k :: 0 <= k < |payments| ==> payments[k].amount <= TotalSpent(payments)
    decreases |payments|
  {
    if |payments| > 0 {
      var init := payments[..|payments| - 1];
      TotalSpentBounds(init);
      assert forall k :: 0 <= k < |init| ==> init[k] == payments[k];
    }
  }

  datatype View = NoPaymentHistory | Summary(count: nat, total: int)

  /** The card shows the empty state for no payments, and otherwise their number and
      total. */
  function HistoryView(payments: seq<PaymentRecord>): (r: View)
    ensures r == NoPaymentHistory <==> |payments| == 0
    ensures r.Summary? ==> r.count == |payments| && r.total == TotalSpent(payments)
  {
    if |payments| == 0 then NoPaymentHistory else Summary(|payments|, TotalSpent(payments))
  }

  /** The card for two lists shown together: the counts and the totals add up. */
  lemma HistoryViewAppend(a: seq<PaymentRecord>, b: seq<PaymentRecord>)
    ensures HistoryView(a + b) == if |a| + |b| == 0 then NoPaymentHistory
      else Summary(|a| + |b|, TotalSpent(a) + TotalSpent(b))
  {
    TotalSpentAppend(a, b);
  }

  /** The list the card shows for a signed-in user: one completed monthly payment of
      30 rupees, dated `now`, with a made-up transaction id. */
  function SimulatedPayments(now: string, transactionId: string): seq<PaymentRecord> {
    [PaymentRecord("1", 30, "completed", now, "Pro Monthly", "Razorpay", Some("pay_" + transactionId))]
  }

  /** A single payment's total is its amount. */
  lemma TotalSpentSingle(p: PaymentRecord)
    ensures TotalSpent([p]) == p.amount
  {
    assert [p][..0] == [];
  }

  lemma SimulatedSummary(now: string, transactionId: string)
    ensures HistoryView(SimulatedPayments(now, transactionId)) == Summary(1, 30)
  {
    TotalSpentSingle(SimulatedPayments(now, transactionId)[0]);
  }
}
