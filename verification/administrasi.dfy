// The member's administration screen
// (src/components/media-dashboard/Administrasi.tsx): the display of a payment
// status, the summary of the member's payments, and the account status shown
// at the top. The payments are the fetched list, taken as given; the fetch,
// the currency and date formatting and the icons are not modelled.

module Administrasi {
  import Seqs

  /** A payment's status as stored; a value outside the four declared ones is kept as
      `Unrecognised`, which the display falls back on. */
  datatype PaymentStatus = PendingPayment | PendingVerification | Verified | Rejected
                         | Unrecognised(name: string)

  datatype Payment = Payment(id: string, baseAmount: int, uniqueCode: int, totalAmount: int,
                             status: PaymentStatus)

  /** The label and badge classes of a status. */
  datatype Display = Display(text: string, variant: string)

  /** `getStatusDisplay(status)` */
  function StatusDisplay(status: PaymentStatus): (d: Display)
    ensures d.text == "Lunas" <==> status == Verified
    ensures d.text == "Menunggu Verifikasi" <==> status == PendingVerification
    ensures d.text == "Belum Bayar" <==> status == PendingPayment
    ensures d.text == "Ditolak" <==> status == Rejected
    ensures d.text == "Unknown" <==> status.Unrecognised?
    ensures d.variant == "bg-red-100 text-red-700" <==> status == PendingPayment || status == Rejected
  {
    match status
    case Verified => Display("Lunas", "bg-green-100 text-green-700")
    case PendingVerification => Display("Menunggu Verifikasi", "bg-amber-100 text-amber-700")
    case PendingPayment => Display("Belum Bayar", "bg-red-100 text-red-700")
    case Rejected => Display("Ditolak", "bg-red-100 text-red-700")
    case Unrecognised(_) => Display("Unknown", "bg-gray-100 text-gray-700")
  }

  /** Still to be settled: awaiting the transfer or its verification. */
  predicate Outstanding(p: Payment)
  {
    p.status == PendingPayment || p.status == PendingVerification
  }

  predicate Settled(p: Payment)
  {
    p.status == Verified
  }

  /** `reduce((sum, p) => sum + p.total_amount, 0)` */
  function Total(ps: seq<Payment>): int
  {
    if ps == [] then 0 else ps[0].totalAmount + Total(ps[1..])
  }

  datatype Summary = Summary(totalPending: int, pendingCount: nat, verifiedCount: nat, totalPayments: nat)

  /** `paymentSummary` */
  function PaymentSummary(payments: seq<Payment>): (s: Summary)
    ensures s.pendingCount == Seqs.CountIf(payments, Outstanding)
    ensures s.verifiedCount == Seqs.CountIf(payments, Settled)
    ensures s.totalPayments == |payments|
    ensures s.totalPending == Total(Seqs.Filter(payments, Outstanding))
  {
    var pending := Seqs.Filter(payments, Outstanding);
    Seqs.FilterLength(payments, Outstanding);
    Seqs.FilterLength(payments, Settled);
    Summary(Total(pending), |pending|, |Seqs.Filter(payments, Settled)|, |payments|)
  }

  /** A payment is counted at most once in the summary, and a rejected one not at all. */
  lemma {:induction false} CountsWithinTotal(payments: seq<Payment>)
    ensures Seqs.CountIf(payments, Outstanding) + Seqs.CountIf(payments, Settled) +
            Seqs.CountIf(payments, (p: Payment) => p.status == Rejected) <= |payments|
    ensures var s := PaymentSummary(payments); s.pendingCount + s.verifiedCount <= s.totalPayments
  {
    if payments != [] {
      CountsWithinTotal(payments[1..]);
    }
  }

  /** The outstanding total is the sum over the outstanding payments only: adding a
      settled or rejected payment leaves it as it was, adding an outstanding one adds its
      amount. */
  lemma {:induction false} TotalPendingOfAppend(payments: seq<Payment>, p: Payment)
    ensures PaymentSummary(payments + [p]).totalPending ==
              PaymentSummary(payments).totalPending + (if Outstanding(p) then p.totalAmount else 0)
  {
    Seqs.FilterConcat(payments, [p], Outstanding);
    TotalConcat(Seqs.Filter(payments, Outstanding), Seqs.Filter([p], Outstanding));
    assert Seqs.Filter([p], Outstanding) == if Outstanding(p) then [p] else [];
  }

  lemma {:induction false} TotalConcat(a: seq<Payment>, b: seq<Payment>)
    ensures Total(a + b) == Total(a) + Total(b)
    decreases |a|
  {
    if a != [] {
      assert (a + b)[1..] == a[1..] + b;
      TotalConcat(a[1..], b);
    } else {
      assert a + b == b;
    }
  }

  datatype MemberPaymentStatus = Paid | Unpaid

  /** `payments.some(p => p.status === "pending_verification")` */
  predicate AwaitingVerification(payments: seq<Payment>)
  {
    exists i :: 0 <= i < |payments| && payments[i].status == PendingVerification
  }

  /** `accountStatus`, by its label. */
  function AccountStatus(paymentStatus: MemberPaymentStatus, payments: seq<Payment>): (text: string)
    ensures text == "AKTIF" <==> paymentStatus == Paid
    ensures text == "MENUNGGU VERIFIKASI" <==> paymentStatus.Unpaid? && AwaitingVerification(payments)
    ensures text == "BELUM BAYAR" <==>
              paymentStatus.Unpaid? && forall i :: 0 <= i < |payments| ==> payments[i].status != PendingVerification
  {
    if paymentStatus == Paid then "AKTIF"
    else if AwaitingVerification(payments) then "MENUNGGU VERIFIKASI"
    else "BELUM BAYAR"
  }
}
