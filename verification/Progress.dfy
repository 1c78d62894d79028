/**
 Progress percentages, with the saturating 64-bit operations and the 8-bit cast written out.
 */
module Progress {
  import opened Division

  const U32: nat := 0x1_0000_0000
  const U64: nat := 0x1_0000_0000_0000_0000

  function Saturating(n: nat): (r: nat)
    ensures n > 0 ==> r > 0
  {
    if n < U64 then n else U64 - 1
  }

  function Min(a: nat, b: nat): nat {
    if a < b then a else b
  }

  function AsU8(n: nat): nat {
    n % 256
  }

  function CreditPhaseProgress(rowNumber: nat): nat {
    AsU8(5 + Min(Quotient(Saturating(rowNumber * 35), Saturating(rowNumber + 10_000)), 39))
  }

  function AtLeastOne(n: nat): (r: nat)
    ensures r >= 1
  {
    if n < 1 then 1 else n
  }

  function PaymentPhaseProgress(paymentRow: nat, creditCount: nat): nat {
    AsU8(40 + Min(Quotient(Saturating(paymentRow * 50), Saturating(paymentRow + AtLeastOne(creditCount))), 50))
  }

  // ----- non-linear facts --------------------------------------------------------------------

  /** A share x / (x + c) of k is below k. */
  lemma ShareIsPart(k: nat, x: nat, c: nat)
    requires c > 0 && k > 0
    ensures Quotient(x * k, x + c) < k
  {
    assert k * (x + c) == x * k + k * c;
    Times(1, k, c);
    QuotientAtMost(x * k, x + c, k);
  }

  /** A share x / (x + c) of k grows with x. */
  lemma ShareGrows(k: nat, x: nat, y: nat, c: nat)
    requires c > 0 && k > 0 && x <= y
    ensures Quotient(x * k, x + c) <= Quotient(y * k, y + c)
  {
    var p, d := Quotient(x * k, x + c), y - x;
    QuotientBounds(x * k, x + c);
    ShareIsPart(k, x, c);
    Times(p, k, d);
    Distributes(p, x + c, d);
    Distributes(k, x, d);
    QuotientAtLeast(y * k, y + c, p);
  }

  lemma Distributes(k: nat, x: nat, d: nat)
    ensures k * (x + d) == k * x + k * d
  {
  }

  // ----- the two phases ------------------------------------------------------------------------

  lemma CreditPhaseShare(rowNumber: nat)
    requires rowNumber < U32
    ensures CreditPhaseProgress(rowNumber) == 5 + Quotient(rowNumber * 35, rowNumber + 10_000)
    ensures 5 <= CreditPhaseProgress(rowNumber) <= 39
  {
    ShareIsPart(35, rowNumber, 10_000);
  }

  /** For row numbers of 32 bits nothing saturates, the cap is not reached and the cast keeps the value. */
  lemma CreditPhaseIsPlain(rowNumber: nat)
    requires rowNumber < U32
    ensures CreditPhaseProgress(rowNumber) == 5 + rowNumber * 35 / (rowNumber + 10_000)
    ensures 5 <= CreditPhaseProgress(rowNumber) <= 39
  {
    CreditPhaseShare(rowNumber);
    QuotientIsDivision(rowNumber * 35, rowNumber + 10_000);
  }

  lemma CreditPhaseGrows(m: nat, n: nat)
    requires m <= n < U32
    ensures CreditPhaseProgress(m) <= CreditPhaseProgress(n)
  {
    CreditPhaseShare(m);
    CreditPhaseShare(n);
    ShareGrows(35, m, n, 10_000);
  }

  lemma PaymentPhaseShare(paymentRow: nat, creditCount: nat)
    requires paymentRow < U32 && creditCount < U64 - U32
    ensures PaymentPhaseProgress(paymentRow, creditCount)
            == 40 + Quotient(paymentRow * 50, paymentRow + AtLeastOne(creditCount))
  {
    ShareIsPart(50, paymentRow, AtLeastOne(creditCount));
  }

  /** The same for the payments, unless the number of credits is within 2^32 of the 64-bit limit. */
  lemma PaymentPhaseIsPlain(paymentRow: nat, creditCount: nat)
    requires paymentRow < U32 && creditCount < U64 - U32
    ensures PaymentPhaseProgress(paymentRow, creditCount)
            == 40 + paymentRow * 50 / (paymentRow + AtLeastOne(creditCount))
  {
    PaymentPhaseShare(paymentRow, creditCount);
    QuotientIsDivision(paymentRow * 50, paymentRow + AtLeastOne(creditCount));
  }

  /** With that many credits the share rounds to nothing. */
  lemma PaymentPhaseOfManyCredits(paymentRow: nat, creditCount: nat)
    requires paymentRow < U32 && U64 - U32 <= creditCount
    ensures PaymentPhaseProgress(paymentRow, creditCount) == 40
  {
    var total := Saturating(paymentRow + creditCount);
    QuotientAtMost(paymentRow * 50, total, 1);
  }

  lemma PaymentPhaseInRange(paymentRow: nat, creditCount: nat)
    requires paymentRow < U32
    ensures 40 <= PaymentPhaseProgress(paymentRow, creditCount) <= 89
  {
    if creditCount < U64 - U32 {
      PaymentPhaseShare(paymentRow, creditCount);
      ShareIsPart(50, paymentRow, AtLeastOne(creditCount));
    } else {
      PaymentPhaseOfManyCredits(paymentRow, creditCount);
    }
  }

  lemma PaymentPhaseGrows(m: nat, n: nat, creditCount: nat)
    requires m <= n < U32
    ensures PaymentPhaseProgress(m, creditCount) <= PaymentPhaseProgress(n, creditCount)
  {
    if creditCount < U64 - U32 {
      PaymentPhaseShare(m, creditCount);
      PaymentPhaseShare(n, creditCount);
      ShareGrows(50, m, n, AtLeastOne(creditCount));
    } else {
      PaymentPhaseOfManyCredits(m, creditCount);
      PaymentPhaseOfManyCredits(n, creditCount);
    }
  }

  // ----- a whole run ---------------------------------------------------------------------------

  const REPORT_EVERY: nat := 2_000

  /** A report is made at the row or it is not. */
  function At<T>(rowNumber: nat, report: T): seq<T> {
    if rowNumber % REPORT_EVERY == 0 then [report] else []
  }

  /** What the credit loop reports over its first rows. */
  function CreditReports(rows: nat): seq<nat> {
    if rows == 0 then [] else CreditReports(rows - 1) + At(rows, CreditPhaseProgress(rows))
  }

  function PaymentReports(rows: nat, creditCount: nat): seq<nat> {
    if rows == 0 then [] else PaymentReports(rows - 1, creditCount) + At(rows, PaymentPhaseProgress(rows, creditCount))
  }

  /** What the pipeline reports over a run that is neither cancelled nor broken off. */
  function Reports(creditRows: nat, paymentRows: nat, creditCount: nat): seq<nat> {
    CreditReports(creditRows) + [40] + PaymentReports(paymentRows, creditCount) + [95]
  }

  predicate Ascending(s: seq<nat>, low: nat, high: nat) {
    && (forall i :: 0 <= i < |s| ==> low <= s[i] <= high)
    && (forall i, j :: 0 <= i < j < |s| ==> s[i] <= s[j])
  }

  lemma AscendingConcat(a: seq<nat>, b: seq<nat>, low: nat, mid: nat, mid': nat, high: nat)
    requires Ascending(a, low, mid) && Ascending(b, mid', high) && low <= mid <= mid' <= high
    ensures Ascending(a + b, low, high)
  {
  }

  lemma {:induction false} CreditReportsAscend(rows: nat)
    requires rows < U32
    ensures Ascending(CreditReports(rows), 5, CreditPhaseProgress(rows))
    ensures 5 <= CreditPhaseProgress(rows) <= 39
    decreases rows
  {
    CreditPhaseShare(rows);
    if rows > 0 {
      CreditReportsAscend(rows - 1);
      CreditPhaseGrows(rows - 1, rows);
    }
  }

  lemma {:induction false} PaymentReportsAscend(rows: nat, creditCount: nat)
    requires rows < U32
    ensures Ascending(PaymentReports(rows, creditCount), 40, PaymentPhaseProgress(rows, creditCount))
    ensures 40 <= PaymentPhaseProgress(rows, creditCount) <= 89
    decreases rows
  {
    PaymentPhaseInRange(rows, creditCount);
    if rows > 0 {
      PaymentReportsAscend(rows - 1, creditCount);
      PaymentPhaseGrows(rows - 1, rows, creditCount);
    }
  }

  /** The worker writes 5 before the pipeline and 100 after it; in between progress never goes back. */
  lemma ProgressNeverGoesBack(creditRows: nat, paymentRows: nat, creditCount: nat)
    requires creditRows < U32 && paymentRows < U32
    ensures Ascending([5] + Reports(creditRows, paymentRows, creditCount) + [100], 5, 100)
  {
    var credits, payments := CreditReports(creditRows), PaymentReports(paymentRows, creditCount);
    CreditReportsAscend(creditRows);
    PaymentReportsAscend(paymentRows, creditCount);
    AscendingConcat(credits, [40], 5, CreditPhaseProgress(creditRows), 40, 40);
    AscendingConcat(credits + [40], payments, 5, 40, 40, PaymentPhaseProgress(paymentRows, creditCount));
    AscendingConcat(credits + [40] + payments, [95], 5, PaymentPhaseProgress(paymentRows, creditCount), 95, 95);
  }
}
