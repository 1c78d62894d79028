/**
 The pipeline: two validating loops over the bank's streams fill one transaction, with a
 progress callback that may stop the run.
 */
module Pipeline {
  import opened Collections
  import opened Options
  import opened Warehouse
  import opened Dedup
  import opened SnapshotState
  import opened SnapshotWriter
  import opened Validation
  import opened JsonRowStream
  import opened Progress

  // ----- the progress callback -------------------------------------------------------------------

  datatype Answer = Continue | Abort | Raise

  /** What one call is given; of the error log, the latest entries. */
  datatype Report = Report(processed: nat, percent: nat, recent: seq<ErrorLog>)

  const MAX_PROGRESS_ERRORS: nat := 50

  function Recent(logs: seq<ErrorLog>): seq<ErrorLog> {
    if |logs| <= MAX_PROGRESS_ERRORS then logs else logs[|logs| - MAX_PROGRESS_ERRORS..]
  }

  class Monitor {
    const answers: nat -> Answer
    var reports: seq<Report>
    /** What the callback said last; before it is asked, to continue. */
    var last: Answer

    constructor (answers: nat -> Answer)
      ensures reports == [] && last == Continue && this.answers == answers
    {
      this.answers, reports, last := answers, [], Continue;
    }

    method Emit(report: Report) returns (answer: Answer)
      requires last.Continue?
      modifies this
      ensures answer == last == answers(|old(reports)|) && reports == old(reports) + [report]
    {
      answer := answers(|reports|);
      last := answer;
      reports := reports + [report];
    }
  }

  // ----- what the rows amount to -------------------------------------------------------------------

  /** The accounts the credit rows introduce. */
  function Known(isDecimal: DecimalTest, credits: seq<RowMap>): set<Account> {
    LastWins(AcceptedCredits(isDecimal, credits)).Keys
  }

  /** The reports of the credit loop. */
  function CreditReportsOf(isDecimal: DecimalTest, rows: seq<RowMap>): seq<Report>
    decreases |rows|
  {
    if rows == [] then []
    else
      CreditReportsOf(isDecimal, rows[..|rows| - 1])
      + At(|rows|, Report(|rows|, CreditPhaseProgress(|rows|), Recent(AllCreditLogs(isDecimal, rows))))
  }

  /** What the payment loop starts from. */
  datatype Loaded = Loaded(processed: nat, logs: seq<ErrorLog>, known: set<Account>, count: nat)

  function LoadedFrom(isDecimal: DecimalTest, credits: seq<RowMap>): Loaded {
    Loaded(|credits|, AllCreditLogs(isDecimal, credits), Known(isDecimal, credits), |Known(isDecimal, credits)|)
  }

  function PaymentReportsOf(isDecimal: DecimalTest, from: Loaded, rows: seq<RowMap>): seq<Report>
    decreases |rows|
  {
    if rows == [] then []
    else
      PaymentReportsOf(isDecimal, from, rows[..|rows| - 1])
      + At(|rows|, PaymentReport(isDecimal, from, rows))
  }

  function PaymentReport(isDecimal: DecimalTest, from: Loaded, rows: seq<RowMap>): Report {
    Report(from.processed + |rows|, PaymentPhaseProgress(|rows|, from.count),
           Recent(from.logs + AllPaymentLogs(isDecimal, rows, from.known)))
  }

  /** The reports up to the one that follows the credits. */
  function FirstReports(isDecimal: DecimalTest, credits: seq<RowMap>): seq<Report> {
    CreditReportsOf(isDecimal, credits) + [CreditsReport(isDecimal, credits)]
  }

  function CreditsReport(isDecimal: DecimalTest, credits: seq<RowMap>): Report {
    Report(|credits|, 40, Recent(AllCreditLogs(isDecimal, credits)))
  }

  /** The reports of a run that reaches the commit. */
  function AllReports(isDecimal: DecimalTest, credits: seq<RowMap>, payments: seq<RowMap>): seq<Report> {
    FirstReports(isDecimal, credits)
    + PaymentReportsOf(isDecimal, LoadedFrom(isDecimal, credits), payments)
    + [LastReport(isDecimal, credits, payments)]
  }

  function LastReport(isDecimal: DecimalTest, credits: seq<RowMap>, payments: seq<RowMap>): Report {
    Report(|credits| + |payments|, 95, Recent(AllLogs(isDecimal, credits, payments)))
  }

  function AllLogs(isDecimal: DecimalTest, credits: seq<RowMap>, payments: seq<RowMap>): seq<ErrorLog> {
    AllCreditLogs(isDecimal, credits) + AllPaymentLogs(isDecimal, payments, Known(isDecimal, credits))
  }

  // ----- the credit loop ---------------------------------------------------------------------------

  type CellWriter = Writer<Cells, Cells>

  /** The writer has been given these credits, and no payments. */
  ghost predicate HoldsCredits(writer: CellWriter, credits: seq<Credit<Cells>>)
    reads writer, writer.db
  {
    && writer.Valid() && !writer.db.faulted
    && writer.PushedCredits() == credits && writer.PushedPayments() == [] && writer.paymentBatch == []
    && |writer.creditBatch| == Waiting(|credits|, writer.sizes.creditBatch)
  }

  /** The accounts of the credits that full batches have taken to the database. */
  function FlushedAccounts(credits: seq<Credit<Cells>>, batch: nat): nat {
    |LastWins(credits[..|credits| - Waiting(|credits|, batch)]).Keys|
  }

  lemma IngestedSoFar(writer: CellWriter, credits: seq<Credit<Cells>>)
    requires HoldsCredits(writer, credits)
    ensures |writer.creditIdMap| == FlushedAccounts(credits, writer.sizes.creditBatch)
  {
    IdsOfWritten(writer.base, writer.State(), writer.slice);
    assert credits[..|credits| - |writer.creditBatch|] == writer.flushedCredits;
    assert |writer.creditIdMap| == |writer.creditIdMap.Keys|;
  }

  function AccountSet(credit: Option<Credit<Cells>>): set<Account> {
    if credit.Some? then {credit.value.account} else {}
  }

  lemma OneMoreAccount(credits: seq<Credit<Cells>>, credit: Option<Credit<Cells>>)
    ensures LastWins(credits + OneOrNone(credit)).Keys == LastWins(credits).Keys + AccountSet(credit)
  {
    if credit.Some? {
      LastWinsAppend(credits, credit.value);
    } else {
      assert credits + [] == credits;
    }
  }

  lemma OneMoreCredit(isDecimal: DecimalTest, rows: seq<RowMap>, row: RowMap)
    ensures AcceptedCredits(isDecimal, rows + [row])
            == AcceptedCredits(isDecimal, rows) + OneOrNone(CreditOf(isDecimal, row))
    ensures AllCreditLogs(isDecimal, rows + [row])
            == AllCreditLogs(isDecimal, rows) + CreditLogs(isDecimal, row, |rows| + 1)
    ensures Known(isDecimal, rows + [row]) == Known(isDecimal, rows) + AccountSet(CreditOf(isDecimal, row))
  {
    assert (rows + [row])[..|rows|] == rows;
    OneMoreAccount(AcceptedCredits(isDecimal, rows), CreditOf(isDecimal, row));
  }

  /** An accepted credit goes to the writer and its account becomes known. */
  method KeepCredit(credit: Option<Credit<Cells>>, known: set<Account>, writer: CellWriter,
                    ghost credits: seq<Credit<Cells>>)
    returns (ok: bool, known': set<Account>)
    requires HoldsCredits(writer, credits)
    modifies writer, writer.db`nextId, writer.db`statements, writer.db`faulted
    ensures ok ==> HoldsCredits(writer, credits + OneOrNone(credit)) && known' == known + AccountSet(credit)
    ensures !ok ==> writer.db.faulted
    ensures writer.db.nextId >= old(writer.db.nextId)
  {
    known' := known;
    if credit.Some? {
      known' := known' + {credit.value.account};
      assert |credits + OneOrNone(credit)| == |credits| + 1;
      var error := writer.PushCredit(credit.value);
      if error.Some? { return false, known'; }
    } else {
      assert credits + [] == credits;
    }
    ok := true;
  }

  /** The writer, the log and the known accounts are what the rows amount to. */
  ghost predicate CreditsAre(isDecimal: DecimalTest, rows: seq<RowMap>, known: set<Account>, writer: CellWriter,
                             sink: ErrorSink)
    reads writer, writer.db, sink
  {
    && HoldsCredits(writer, AcceptedCredits(isDecimal, rows))
    && sink.logs == AllCreditLogs(isDecimal, rows)
    && known == Known(isDecimal, rows)
  }

  method TakeCredit(isDecimal: DecimalTest, row: RowMap, rowNumber: nat, known: set<Account>,
                    writer: CellWriter, sink: ErrorSink, ghost rows: seq<RowMap>)
    returns (ok: bool, known': set<Account>)
    requires CreditsAre(isDecimal, rows, known, writer, sink) && rowNumber == |rows| + 1
    modifies writer, writer.db`nextId, writer.db`statements, writer.db`faulted, sink
    ensures ok ==> CreditsAre(isDecimal, rows + [row], known', writer, sink)
    ensures !ok ==> writer.db.faulted
    ensures writer.db.nextId >= old(writer.db.nextId)
  {
    var credit := ParseCreditRow(isDecimal, row, rowNumber, sink);
    ok, known' := KeepCredit(credit, known, writer, AcceptedCredits(isDecimal, rows));
    OneMoreCredit(isDecimal, rows, row);
  }

  datatype Halt = Proceed | Cancelled | Broken

  function HaltOf(answer: Answer): Halt {
    match answer
    case Continue => Proceed
    case Abort => Cancelled
    case Raise => Broken
  }

  /** A report at every two thousandth row. */
  method ReportAt(monitor: Monitor, rowNumber: nat, report: Report) returns (halt: Halt)
    requires monitor.last.Continue?
    modifies monitor
    ensures monitor.reports == old(monitor.reports) + At(rowNumber, report)
    ensures halt == HaltOf(monitor.last)
  {
    halt := Proceed;
    if rowNumber % REPORT_EVERY == 0 {
      var answer := monitor.Emit(report);
      halt := HaltOf(answer);
    }
  }

  lemma {:induction false} CreditReportsPrefix(isDecimal: DecimalTest, rows: seq<RowMap>, all: seq<RowMap>)
    requires rows <= all
    ensures CreditReportsOf(isDecimal, rows) <= CreditReportsOf(isDecimal, all)
    decreases |all|
  {
    if rows != all { CreditReportsPrefix(isDecimal, rows, all[..|all| - 1]); }
  }

  lemma {:induction false} PaymentReportsPrefix(isDecimal: DecimalTest, from: Loaded, rows: seq<RowMap>,
                                                all: seq<RowMap>)
    requires rows <= all
    ensures PaymentReportsOf(isDecimal, from, rows) <= PaymentReportsOf(isDecimal, from, all)
    decreases |all|
  {
    if rows != all { PaymentReportsPrefix(isDecimal, from, rows, all[..|all| - 1]); }
  }

  lemma OneMoreCreditReport(isDecimal: DecimalTest, rows: seq<RowMap>, row: RowMap)
    ensures var n := |rows| + 1;
            CreditReportsOf(isDecimal, rows + [row])
            == CreditReportsOf(isDecimal, rows)
               + At(n, Report(n, CreditPhaseProgress(n), Recent(AllCreditLogs(isDecimal, rows + [row]))))
  {
    assert (rows + [row])[..|rows|] == rows;
  }

  /** One row of the credit loop: the credit, and the report if one is due. */
  method OneCredit(isDecimal: DecimalTest, row: RowMap, rowNumber: nat, known: set<Account>, processed: nat,
                   writer: CellWriter, monitor: Monitor, sink: ErrorSink, ghost rows: seq<RowMap>)
    returns (ok: bool, halt: Halt, known': set<Account>)
    requires CreditsAre(isDecimal, rows, known, writer, sink) && processed == rowNumber == |rows| + 1
    requires monitor.reports == CreditReportsOf(isDecimal, rows) && monitor.last.Continue?
    modifies writer, writer.db`nextId, writer.db`statements, writer.db`faulted, monitor, sink
    ensures ok ==>
              && CreditsAre(isDecimal, rows + [row], known', writer, sink) && halt == HaltOf(monitor.last)
              && monitor.reports == CreditReportsOf(isDecimal, rows + [row])
    ensures !ok ==> writer.db.faulted && monitor.reports == old(monitor.reports) && monitor.last.Continue?
    ensures writer.db.nextId >= old(writer.db.nextId)
  {
    halt := Broken;
    ok, known' := TakeCredit(isDecimal, row, rowNumber, known, writer, sink, rows);
    if ok {
      OneMoreCreditReport(isDecimal, rows, row);
      halt := ReportAt(monitor, rowNumber, Report(processed, CreditPhaseProgress(rowNumber), Recent(sink.logs)));
    }
  }

  method LoadCredits(isDecimal: DecimalTest, stream: ChunkedReader, writer: CellWriter, monitor: Monitor,
                     sink: ErrorSink, ghost d: Drained)
    returns (halt: Halt, known: set<Account>, processed: nat, ghost rows: seq<RowMap>)
    requires CreditsAre(isDecimal, [], {}, writer, sink) && Ahead(d, [], stream.View()) && stream.rowNumber == 0
    requires monitor.reports == [] && monitor.last.Continue?
    modifies stream, writer, writer.db`nextId, writer.db`statements, writer.db`faulted, monitor, sink
    ensures rows <= d.rows && monitor.reports == CreditReportsOf(isDecimal, rows)
    ensures !halt.Broken? ==>
            CreditsAre(isDecimal, rows, known, writer, sink) && processed == |rows| && halt == HaltOf(monitor.last)
    ensures halt.Proceed? ==> d.last.End? && rows == d.rows
    ensures halt.Broken? ==> monitor.last.Raise? || (monitor.last.Continue? && (writer.db.faulted || !d.last.End?))
    ensures writer.db.nextId >= old(writer.db.nextId)
  {
    known, processed, halt := {}, 0, Proceed;
    rows := [];
    while halt.Proceed?
      invariant writer.db.nextId >= old(writer.db.nextId)
      invariant rows <= d.rows && monitor.reports == CreditReportsOf(isDecimal, rows) && halt == HaltOf(monitor.last)
      invariant CreditsAre(isDecimal, rows, known, writer, sink) && processed == |rows|
      invariant Ahead(d, rows, stream.View()) && stream.rowNumber == |rows|
      decreases |stream.Rest()|, halt.Proceed?
    {
      var item := stream.NextAfter(d, rows);
      if item.End? { return; }
      if !item.Row? { return Broken, known, processed, rows; }
      var ok;
      ok, halt, known := OneCredit(isDecimal, item.row, stream.rowNumber, known, processed + 1, writer, monitor, sink,
                                   rows);
      if !ok { return Broken, known, processed, rows; }
      processed := processed + 1;
      rows := rows + [item.row];
    }
  }

  // ----- the payment loop --------------------------------------------------------------------------

  /** The writer has flushed these credits, whose accounts are known, and has been given these payments. */
  ghost predicate HoldsPayments(writer: CellWriter, credits: seq<Credit<Cells>>, known: set<Account>,
                                payments: seq<Payment<Cells>>)
    reads writer, writer.db
  {
    && writer.Valid() && !writer.db.faulted
    && writer.flushedCredits == credits && writer.creditBatch == [] && writer.creditIdMap.Keys == known
    && writer.PushedPayments() == payments && AllKnown(payments, known)
  }

  /** An accepted payment goes to the writer, where the id of its credit is never missing. */
  method KeepPayment(payment: Option<Payment<Cells>>, writer: CellWriter, ghost credits: seq<Credit<Cells>>,
                     ghost known: set<Account>, ghost payments: seq<Payment<Cells>>)
    returns (ok: bool)
    requires HoldsPayments(writer, credits, known, payments)
    requires payment.Some? ==> payment.value.account in known
    modifies writer, writer.db`statements, writer.db`faulted
    ensures ok ==> HoldsPayments(writer, credits, known, payments + OneOrNone(payment))
    ensures !ok ==> writer.db.faulted || !DistinctPayments(payments + OneOrNone(payment))
  {
    if payment.Some? {
      BatchIsKnown(writer.flushedPayments, writer.paymentBatch, payment.value, known);
      var error := writer.PushPayment(payment.value);
      if error.Some? { return false; }
    } else {
      assert payments + [] == payments;
    }
    ok := true;
  }

  /** The batch is the end of what was pushed. */
  lemma BatchIsKnown(flushed: seq<Payment<Cells>>, batch: seq<Payment<Cells>>, p: Payment<Cells>, known: set<Account>)
    requires AllKnown(flushed + batch, known) && p.account in known
    ensures AllKnown(batch + [p], known) && AllKnown(flushed + batch + [p], known)
  {
    assert forall i :: 0 <= i < |batch| ==> (flushed + batch)[|flushed| + i] == batch[i];
  }

  ghost predicate PaymentsAre(isDecimal: DecimalTest, from: Loaded, credits: seq<Credit<Cells>>, rows: seq<RowMap>,
                              writer: CellWriter, sink: ErrorSink)
    reads writer, writer.db, sink
  {
    && HoldsPayments(writer, credits, from.known, AcceptedPayments(isDecimal, rows, from.known))
    && sink.logs == from.logs + AllPaymentLogs(isDecimal, rows, from.known)
  }

  lemma OneMorePayment(isDecimal: DecimalTest, rows: seq<RowMap>, known: set<Account>, row: RowMap)
    ensures AcceptedPayments(isDecimal, rows + [row], known)
            == AcceptedPayments(isDecimal, rows, known) + OneOrNone(PaymentOf(isDecimal, row, known))
    ensures AllPaymentLogs(isDecimal, rows + [row], known)
            == AllPaymentLogs(isDecimal, rows, known) + PaymentLogs(isDecimal, row, known, |rows| + 1)
  {
    assert (rows + [row])[..|rows|] == rows;
  }

  /** Two of the accepted payments have the same account and installment number. */
  ghost predicate Refused(isDecimal: DecimalTest, rows: seq<RowMap>, known: set<Account>) {
    !DistinctPayments(AcceptedPayments(isDecimal, rows, known))
  }

  method TakePayment(isDecimal: DecimalTest, row: RowMap, rowNumber: nat, known: set<Account>, writer: CellWriter,
                     sink: ErrorSink,
                     ghost from: Loaded, ghost credits: seq<Credit<Cells>>, ghost rows: seq<RowMap>)
    returns (ok: bool)
    requires PaymentsAre(isDecimal, from, credits, rows, writer, sink) && rowNumber == |rows| + 1 && known == from.known
    modifies writer, writer.db`statements, writer.db`faulted, sink
    ensures ok ==> PaymentsAre(isDecimal, from, credits, rows + [row], writer, sink)
    ensures !ok ==> writer.db.faulted || Refused(isDecimal, rows + [row], known)
  {
    var payment := ParsePaymentRow(isDecimal, row, known, rowNumber, sink);
    Join(from.logs, AllPaymentLogs(isDecimal, rows, known), PaymentLogs(isDecimal, row, known, rowNumber));
    ok := KeepPayment(payment, writer, credits, known, AcceptedPayments(isDecimal, rows, known));
    OneMorePayment(isDecimal, rows, known, row);
  }

  lemma {:induction false} AcceptedPaymentsConcat(isDecimal: DecimalTest, rows: seq<RowMap>, more: seq<RowMap>,
                                                  known: set<Account>)
    ensures AcceptedPayments(isDecimal, rows + more, known)
            == AcceptedPayments(isDecimal, rows, known) + AcceptedPayments(isDecimal, more, known)
    decreases |more|
  {
    if more == [] {
      assert rows + more == rows;
    } else {
      var most, last := more[..|more| - 1], more[|more| - 1];
      assert more == most + [last];
      Join(rows, most, [last]);
      AcceptedPaymentsConcat(isDecimal, rows, most, known);
      OneMorePayment(isDecimal, rows + most, known, last);
      OneMorePayment(isDecimal, most, known, last);
      Join(AcceptedPayments(isDecimal, rows, known), AcceptedPayments(isDecimal, most, known),
           OneOrNone(PaymentOf(isDecimal, last, known)));
    }
  }

  lemma RefusedStays(isDecimal: DecimalTest, rows: seq<RowMap>, all: seq<RowMap>, known: set<Account>)
    requires rows <= all && Refused(isDecimal, rows, known)
    ensures Refused(isDecimal, all, known)
  {
    assert all == rows + all[|rows|..];
    AcceptedPaymentsConcat(isDecimal, rows, all[|rows|..], known);
    DuplicateStays(AcceptedPayments(isDecimal, rows, known), AcceptedPayments(isDecimal, all[|rows|..], known));
  }

  /** Rows that come twice are refused, if one of them is accepted as a payment. */
  lemma RepeatedIsRefused(isDecimal: DecimalTest, rows: seq<RowMap>, known: set<Account>)
    requires AcceptedPayments(isDecimal, rows, known) != []
    ensures Refused(isDecimal, rows + rows, known)
  {
    var ps := AcceptedPayments(isDecimal, rows, known);
    AcceptedPaymentsConcat(isDecimal, rows, rows, known);
    assert Pair((ps + ps)[0]) == Pair((ps + ps)[|ps|]);
  }

  lemma DuplicateStays(a: seq<Payment<Cells>>, b: seq<Payment<Cells>>)
    ensures DistinctPayments(a + b) ==> DistinctPayments(a)
  {
    PrefixIsDistinct(a, b, 0);
    assert a + b[..0] == a;
  }

  lemma OneMorePaymentReport(isDecimal: DecimalTest, from: Loaded, rows: seq<RowMap>, row: RowMap,
                             before: seq<Report>, n: nat, report: Report)
    requires n == |rows| + 1
    requires report.processed == from.processed + n && report.percent == PaymentPhaseProgress(n, from.count)
    requires report.recent == Recent(from.logs + AllPaymentLogs(isDecimal, rows + [row], from.known))
    ensures before + PaymentReportsOf(isDecimal, from, rows + [row])
            == before + PaymentReportsOf(isDecimal, from, rows) + At(n, report)
  {
    var all := rows + [row];
    assert all[..|rows|] == rows && |all| == n;
    assert report == PaymentReport(isDecimal, from, all);
    Join(before, PaymentReportsOf(isDecimal, from, rows), At(n, report));
  }

  /** One row of the payment loop: the payment, and the report if one is due. */
  method OnePayment(isDecimal: DecimalTest, row: RowMap, rowNumber: nat, known: set<Account>, creditCount: nat,
                    processed: nat,
                    writer: CellWriter, monitor: Monitor, sink: ErrorSink,
                    ghost from: Loaded, ghost credits: seq<Credit<Cells>>, ghost rows: seq<RowMap>,
                    ghost before: seq<Report>)
    returns (ok: bool, halt: Halt)
    requires PaymentsAre(isDecimal, from, credits, rows, writer, sink) && rowNumber == |rows| + 1
    requires from.known == known && from.count == creditCount && processed == from.processed + rowNumber
    requires monitor.reports == before + PaymentReportsOf(isDecimal, from, rows) && monitor.last.Continue?
    modifies writer, writer.db`statements, writer.db`faulted, sink, monitor
    ensures ok ==>
              && PaymentsAre(isDecimal, from, credits, rows + [row], writer, sink) && halt == HaltOf(monitor.last)
              && monitor.reports == before + PaymentReportsOf(isDecimal, from, rows + [row])
    ensures !ok ==> monitor.reports == old(monitor.reports) && monitor.last.Continue?
    ensures !ok ==> writer.db.faulted || Refused(isDecimal, rows + [row], known)
  {
    halt := Broken;
    ok := TakePayment(isDecimal, row, rowNumber, known, writer, sink, from, credits, rows);
    if ok {
      var report := Report(processed, PaymentPhaseProgress(rowNumber, creditCount), Recent(sink.logs));
      OneMorePaymentReport(isDecimal, from, rows, row, before, rowNumber, report);
      halt := ReportAt(monitor, rowNumber, report);
    }
  }

  method LoadPayments(isDecimal: DecimalTest, stream: ChunkedReader, writer: CellWriter, monitor: Monitor,
                      sink: ErrorSink,
                      known: set<Account>, creditCount: nat, rowsBefore: nat,
                      ghost from: Loaded, ghost credits: seq<Credit<Cells>>, ghost d: Drained)
    returns (halt: Halt, processed: nat, ghost rows: seq<RowMap>)
    requires PaymentsAre(isDecimal, from, credits, [], writer, sink) && Ahead(d, [], stream.View())
             && stream.rowNumber == 0
    requires from.known == known && from.count == creditCount && from.processed == rowsBefore && monitor.last.Continue?
    modifies stream, monitor, sink
    modifies writer, writer.db`statements, writer.db`faulted
    ensures rows <= d.rows && monitor.reports == old(monitor.reports) + PaymentReportsOf(isDecimal, from, rows)
    ensures !halt.Broken? ==>
              && PaymentsAre(isDecimal, from, credits, rows, writer, sink) && processed == rowsBefore + |rows|
              && halt == HaltOf(monitor.last)
    ensures halt.Proceed? ==> d.last.End? && rows == d.rows
    ensures halt.Broken? ==>
              monitor.last.Raise?
              || (monitor.last.Continue? && (writer.db.faulted || !d.last.End? || Refused(isDecimal, d.rows, known)))
  {
    processed, halt := rowsBefore, Proceed;
    rows := [];
    ghost var before := monitor.reports;
    assert before + [] == before;
    while halt.Proceed?
      invariant rows <= d.rows && monitor.reports == before + PaymentReportsOf(isDecimal, from, rows)
                && halt == HaltOf(monitor.last)
      invariant PaymentsAre(isDecimal, from, credits, rows, writer, sink) && processed == rowsBefore + |rows|
      invariant Ahead(d, rows, stream.View()) && stream.rowNumber == |rows|
      decreases |stream.Rest()|, halt.Proceed?
    {
      var turn;
      turn, halt, rows := PaymentTurn(isDecimal, stream, writer, monitor, sink, known, creditCount, processed, from,
                                      credits, rows, before, d);
      if turn.Ended? { return; }
      if turn.Stuck? { return Broken, processed, rows; }
      processed := processed + 1;
    }
  }

  datatype Turn = Took | Ended | Stuck

  /** One turn of the payment loop. */
  method PaymentTurn(isDecimal: DecimalTest, stream: ChunkedReader, writer: CellWriter, monitor: Monitor,
                     sink: ErrorSink,
                     known: set<Account>, creditCount: nat, processed: nat, ghost from: Loaded,
                     ghost credits: seq<Credit<Cells>>,
                     ghost rows: seq<RowMap>, ghost before: seq<Report>, ghost d: Drained)
    returns (turn: Turn, halt: Halt, ghost rows': seq<RowMap>)
    requires PaymentsAre(isDecimal, from, credits, rows, writer, sink) && rows <= d.rows
    requires Ahead(d, rows, stream.View()) && stream.rowNumber == |rows|
    requires from.known == known && from.count == creditCount && processed == from.processed + |rows|
    requires monitor.reports == before + PaymentReportsOf(isDecimal, from, rows) && monitor.last.Continue?
    modifies stream, monitor, sink, writer, writer.db`statements, writer.db`faulted
    ensures rows' <= d.rows && monitor.reports == before + PaymentReportsOf(isDecimal, from, rows')
    ensures turn.Took? ==>
              && |rows'| == |rows| + 1 && PaymentsAre(isDecimal, from, credits, rows', writer, sink)
              && halt == HaltOf(monitor.last)
              && Ahead(d, rows', stream.View()) && stream.rowNumber == |rows'| && |stream.Rest()| < |old(stream.Rest())|
    ensures !turn.Took? ==> rows' == rows && monitor.last.Continue?
    ensures turn.Ended? ==>
              d.last.End? && rows == d.rows && PaymentsAre(isDecimal, from, credits, rows, writer, sink)
              && halt == Proceed
    ensures turn.Stuck? ==> writer.db.faulted || !d.last.End? || Refused(isDecimal, d.rows, known)
  {
    rows', halt := rows, Proceed;
    var item := stream.NextAfter(d, rows);
    if item.End? { return Ended, halt, rows; }
    if !item.Row? { return Stuck, halt, rows; }
    var ok;
    ok, halt := OnePayment(isDecimal, item.row, stream.rowNumber, known, creditCount, processed + 1, writer, monitor,
                           sink,
                           from, credits, rows, before);
    if !ok {
      if !writer.db.faulted { RefusedStays(isDecimal, rows + [item.row], d.rows, known); }
      return Stuck, halt, rows;
    }
    turn, rows' := Took, rows + [item.row];
  }

  // ----- the whole run -----------------------------------------------------------------------------

  datatype Result =
    | Raised
    | Returned(success: bool, cancelled: bool, processed: nat, credits: nat, payments: nat, errors: seq<ErrorLog>)

  predicate Succeeded(result: Result) {
    result.Returned? && result.success
  }

  function CancelledResult(processed: nat, credits: nat, errors: seq<ErrorLog>): Result {
    Returned(false, true, processed, credits, 0, errors)
  }

  /** The slice has the last accepted credit of each account and all accepted payments; the rest is as it was. */
  ghost predicate Replaced(before: Tables<Cells, Cells>, after: Tables<Cells, Cells>, slice: Slice,
                           isDecimal: DecimalTest, credits: seq<RowMap>, payments: seq<RowMap>) {
    && Shows(after, slice, LastWins(AcceptedCredits(isDecimal, credits)),
             PaymentMap(AcceptedPayments(isDecimal, payments, Known(isDecimal, credits))))
    && SameElsewhere(before, after, slice)
  }

  /** Both streams are read to their end, and no two accepted payments have the same key. */
  ghost predicate Loadable(isDecimal: DecimalTest, credits: Drained, payments: Drained) {
    credits.last.End? && payments.last.End? && !Refused(isDecimal, payments.rows, Known(isDecimal, credits.rows))
  }

  /** The result of a run that committed. */
  function FullResult(isDecimal: DecimalTest, credits: seq<RowMap>, payments: seq<RowMap>): Result {
    Returned(true, false, |credits| + |payments|, |Known(isDecimal, credits)|,
             |AcceptedPayments(isDecimal, payments, Known(isDecimal, credits))|, AllLogs(isDecimal, credits, payments))
  }

  method Begin(db: Database<Cells, Cells>, slice: Slice, sizes: Sizes) returns (writer: CellWriter, ok: bool)
    requires Sound(db.committed, db.nextId) && GoodSizes(sizes) && !db.faulted
    modifies db`statements, db`faulted
    ensures fresh(writer) && writer.db == db && writer.slice == slice && writer.sizes == sizes
            && writer.base == db.committed
    ensures ok ==> HoldsCredits(writer, [])
    ensures !ok ==> db.faulted
  {
    writer := new Writer(db, slice, sizes);
    var error := writer.DeleteSlice();
    ok := error.None?;
  }

  /** The last credits are flushed, their number is taken, and the payments may begin. */
  method CreditsDone(isDecimal: DecimalTest, writer: CellWriter, monitor: Monitor, sink: ErrorSink,
                     known: set<Account>, processed: nat, ghost rows: seq<RowMap>)
    returns (halt: Halt, creditCount: nat)
    requires CreditsAre(isDecimal, rows, known, writer, sink) && processed == |rows|
    requires monitor.reports == CreditReportsOf(isDecimal, rows) && monitor.last.Continue?
    modifies writer, writer.db`nextId, writer.db`statements, writer.db`faulted, monitor
    ensures !halt.Broken? ==>
              && PaymentsAre(isDecimal, LoadedFrom(isDecimal, rows), AcceptedCredits(isDecimal, rows), [], writer, sink)
              && creditCount == |known| && halt == HaltOf(monitor.last)
              && monitor.reports == FirstReports(isDecimal, rows)
    ensures halt.Broken? ==> monitor.last.Raise? || (monitor.last.Continue? && writer.db.faulted)
    ensures monitor.reports <= FirstReports(isDecimal, rows)
    ensures writer.db.nextId >= old(writer.db.nextId)
  {
    creditCount := 0;
    FirstReportsAre(isDecimal, rows);
    NoPaymentsYet(isDecimal, rows);
    var ok := FlushAll(writer, AcceptedCredits(isDecimal, rows), known);
    if !ok { return Broken, creditCount; }
    creditCount := writer.CreditsIngested();
    assert |writer.creditIdMap| == |writer.creditIdMap.Keys|;
    var report := Report(processed, 40, Recent(sink.logs));
    assert report == CreditsReport(isDecimal, rows);
    var answer := monitor.Emit(report);
    halt := HaltOf(answer);
  }

  lemma NoPaymentsYet(isDecimal: DecimalTest, rows: seq<RowMap>)
    ensures var from := LoadedFrom(isDecimal, rows);
            && from.known == LastWins(AcceptedCredits(isDecimal, rows)).Keys
            && AcceptedPayments(isDecimal, [], from.known) == []
            && from.logs + AllPaymentLogs(isDecimal, [], from.known) == AllCreditLogs(isDecimal, rows)
  {
  }

  lemma FirstReportsAre(isDecimal: DecimalTest, rows: seq<RowMap>)
    ensures FirstReports(isDecimal, rows) == CreditReportsOf(isDecimal, rows) + [CreditsReport(isDecimal, rows)]
    ensures CreditReportsOf(isDecimal, rows) <= FirstReports(isDecimal, rows)
  {
  }

  method FlushAll(writer: CellWriter, ghost credits: seq<Credit<Cells>>, ghost known: set<Account>) returns (ok: bool)
    requires HoldsCredits(writer, credits) && known == LastWins(credits).Keys
    modifies writer, writer.db`nextId, writer.db`statements, writer.db`faulted
    ensures ok ==> HoldsPayments(writer, credits, known, [])
    ensures !ok ==> writer.db.faulted
    ensures writer.db.nextId >= old(writer.db.nextId)
  {
    var error := writer.FlushCredits();
    if error.Some? { return false; }
    IdsOfWritten(writer.base, writer.State(), writer.slice);
    ok := true;
  }

  /** The commit of everything pushed; the keys of the payments are what can still refuse it. */
  method Persist(writer: CellWriter, ghost credits: seq<Credit<Cells>>, ghost known: set<Account>,
                 ghost payments: seq<Payment<Cells>>)
    returns (result: CommitResult)
    requires HoldsPayments(writer, credits, known, payments) && known == LastWins(credits).Keys
    modifies writer, writer.db`committed, writer.db`nextId, writer.db`statements, writer.db`faulted
    ensures result.Failed? ==> writer.db.committed == old(writer.db.committed)
    ensures result.Failed? ==> writer.db.faulted || !DistinctPayments(payments)
    ensures result.Committed? ==>
              && result.payments == |payments| && !writer.db.faulted && DistinctPayments(payments)
              && Sound(writer.db.committed, writer.db.nextId)
              && Shows(writer.db.committed, writer.slice, LastWins(credits), PaymentMap(payments))
              && SameElsewhere(writer.base, writer.db.committed, writer.slice)
    ensures writer.db.nextId >= old(writer.db.nextId)
  {
    assert writer.PushedCredits() == credits;
    BatchOnlyIsKnown(writer.flushedPayments, writer.paymentBatch, known);
    result := writer.Commit();
  }

  lemma BatchOnlyIsKnown(flushed: seq<Payment<Cells>>, batch: seq<Payment<Cells>>, known: set<Account>)
    requires AllKnown(flushed + batch, known)
    ensures AllKnown(batch, known)
  {
    assert forall i :: 0 <= i < |batch| ==> (flushed + batch)[|flushed| + i] == batch[i];
  }

  /** The result of a cancelled run: what had been read, and nothing ingested as a payment. */
  ghost predicate CancelledAt(result: Result, isDecimal: DecimalTest, credits: seq<RowMap>, payments: seq<RowMap>) {
    && result.Returned? && result.cancelled && !result.success && result.payments == 0
    && result.processed == |credits| + |payments|
    && result.errors == AllLogs(isDecimal, credits, payments)
  }

  /** Cancelled in the credit loop; the count is of what its batches had taken to the database. */
  ghost predicate CancelledInLoop(result: Result, isDecimal: DecimalTest, rows: seq<RowMap>, batch: nat) {
    && CancelledAt(result, isDecimal, rows, [])
    && result.credits == FlushedAccounts(AcceptedCredits(isDecimal, rows), batch)
  }

  /** Cancelled when all credits had been written. */
  ghost predicate CancelledLater(result: Result, isDecimal: DecimalTest, credits: seq<RowMap>, payments: seq<RowMap>) {
    CancelledAt(result, isDecimal, credits, payments) && result.credits == |Known(isDecimal, credits)|
  }

  /** Cancelled in the credit loop, after it, or in the payment loop. */
  ghost predicate CancelledWithin(result: Result, isDecimal: DecimalTest, credits: seq<RowMap>, payments: seq<RowMap>,
                                  batch: nat) {
    || (exists n :: 0 <= n <= |credits| && CancelledInLoop(result, isDecimal, credits[..n], batch))
    || (exists n :: 0 <= n <= |payments| && CancelledLater(result, isDecimal, credits, payments[..n]))
  }

  predicate WasCancelled(result: Result) {
    result.Returned? && result.cancelled
  }

  /** The run went on to the commit, which failed. */
  function CommitFailed(isDecimal: DecimalTest, credits: seq<RowMap>, payments: seq<RowMap>): Result {
    Returned(false, false, |credits| + |payments|, |Known(isDecimal, credits)|, 0,
             AllLogs(isDecimal, credits, payments) + [ErrorLog(0, Name.Pipeline, PipelineError)])
  }

  /** The commit and the result it gives. */
  method CommitAndReturn(isDecimal: DecimalTest, writer: CellWriter, sink: ErrorSink, creditCount: nat, processed: nat,
                         ghost credits: seq<RowMap>, ghost payments: seq<RowMap>)
    returns (result: Result)
    requires PaymentsAre(isDecimal, LoadedFrom(isDecimal, credits), AcceptedCredits(isDecimal, credits), payments,
                         writer, sink)
    requires creditCount == |Known(isDecimal, credits)| && processed == |credits| + |payments|
    modifies writer, writer.db`committed, writer.db`nextId, writer.db`statements, writer.db`faulted, sink
    ensures Succeeded(result) <==> !writer.db.faulted && !Refused(isDecimal, payments, Known(isDecimal, credits))
    ensures Succeeded(result) ==>
              && Sound(writer.db.committed, writer.db.nextId)
              && Replaced(writer.base, writer.db.committed, writer.slice, isDecimal, credits, payments)
    ensures !Succeeded(result) ==> writer.db.committed == old(writer.db.committed)
    ensures result == if Succeeded(result) then FullResult(isDecimal, credits, payments)
            else CommitFailed(isDecimal, credits, payments)
    ensures writer.db.nextId >= old(writer.db.nextId)
  {
    ghost var known := Known(isDecimal, credits);
    assert sink.logs == AllLogs(isDecimal, credits, payments);
    var persisted := Persist(writer, AcceptedCredits(isDecimal, credits), known,
                             AcceptedPayments(isDecimal, payments, known));
    match persisted
    case Committed(n) => result := Returned(true, false, processed, creditCount, n, sink.logs);
    case Failed(error) =>
      sink.Push(ErrorLog(0, Name.Pipeline, PipelineError));
      result := Returned(false, false, processed, creditCount, 0, sink.logs);
  }

  /** The last check, the commit and the result. */
  method Finish(isDecimal: DecimalTest, writer: CellWriter, monitor: Monitor, sink: ErrorSink, creditCount: nat,
                processed: nat,
                ghost credits: seq<RowMap>, ghost payments: seq<RowMap>)
    returns (result: Result)
    requires PaymentsAre(isDecimal, LoadedFrom(isDecimal, credits), AcceptedCredits(isDecimal, credits), payments,
                         writer, sink)
    requires creditCount == |Known(isDecimal, credits)| && processed == |credits| + |payments| && monitor.last.Continue?
    modifies writer, writer.db`committed, writer.db`nextId, writer.db`statements, writer.db`faulted, monitor, sink
    ensures Succeeded(result) <==>
              monitor.last.Continue? && !writer.db.faulted && !Refused(isDecimal, payments, Known(isDecimal, credits))
    ensures Succeeded(result) ==>
              && Sound(writer.db.committed, writer.db.nextId)
              && Replaced(writer.base, writer.db.committed, writer.slice, isDecimal, credits, payments)
              && result == FullResult(isDecimal, credits, payments)
    ensures !Succeeded(result) ==> writer.db.committed == old(writer.db.committed)
    ensures WasCancelled(result) <==> monitor.last.Abort?
    ensures WasCancelled(result) ==> CancelledLater(result, isDecimal, credits, payments)
    ensures result.Returned? && !result.success && !result.cancelled ==>
            result == CommitFailed(isDecimal, credits, payments)
    ensures monitor.reports == old(monitor.reports) + [LastReport(isDecimal, credits, payments)]
    ensures writer.db.nextId >= old(writer.db.nextId)
  {
    assert sink.logs == AllLogs(isDecimal, credits, payments);
    var report := Report(processed, 95, Recent(sink.logs));
    assert report == LastReport(isDecimal, credits, payments);
    var answer := monitor.Emit(report);
    match answer
    case Abort => result := CancelledResult(processed, creditCount, sink.logs);
    case Raise => result := Raised;
    case Continue => result := CommitAndReturn(isDecimal, writer, sink, creditCount, processed, credits, payments);
  }

  /** No payment has been read. */
  lemma CreditsOnly(isDecimal: DecimalTest, rows: seq<RowMap>)
    ensures AllLogs(isDecimal, rows, []) == AllCreditLogs(isDecimal, rows)
  {
    assert AllPaymentLogs(isDecimal, [], Known(isDecimal, rows)) == [];
  }

  /** Everything up to the first report after the credits; a result, if the run ends there. */
  method CreditPhase(isDecimal: DecimalTest, writer: CellWriter, stream: ChunkedReader, monitor: Monitor,
                     sink: ErrorSink, ghost c: Drained)
    returns (ended: Option<Result>, known: set<Account>, creditCount: nat, processed: nat, ghost rows: seq<RowMap>)
    requires HoldsCredits(writer, []) && sink.logs == [] && Ahead(c, [], stream.View()) && stream.rowNumber == 0
    requires monitor.reports == [] && monitor.last.Continue?
    modifies stream, writer, writer.db`nextId, writer.db`statements, writer.db`faulted, monitor, sink
    ensures ended.None? ==>
              && c.last.End? && PaymentsAre(isDecimal, LoadedFrom(isDecimal, c.rows),
                                            AcceptedCredits(isDecimal, c.rows), [], writer, sink)
              && known == Known(isDecimal, c.rows) && creditCount == |known| && processed == |c.rows|
              && monitor.last.Continue?
              && monitor.reports == FirstReports(isDecimal, c.rows)
    ensures ended.Some? ==> !Succeeded(ended.value) && (!monitor.last.Continue? || writer.db.faulted || !c.last.End?)
    ensures ended.Some? && ended.value.Returned? ==>
              && rows <= c.rows && monitor.last.Abort?
              && (CancelledInLoop(ended.value, isDecimal, rows, writer.sizes.creditBatch)
                  || CancelledLater(ended.value, isDecimal, c.rows, []))
    ensures ended.Some? && monitor.last.Abort? ==> ended.value.Returned?
    ensures monitor.reports <= FirstReports(isDecimal, c.rows)
    ensures writer.db.nextId >= old(writer.db.nextId)
  {
    creditCount := 0;
    var halt;
    halt, known, processed, rows := LoadCredits(isDecimal, stream, writer, monitor, sink, c);
    CreditReportsPrefix(isDecimal, rows, c.rows);
    CreditsOnly(isDecimal, rows);
    if halt.Broken? { return Some(Raised), known, creditCount, processed, rows; }
    if halt.Cancelled? {
      creditCount := writer.CreditsIngested();
      IngestedSoFar(writer, AcceptedCredits(isDecimal, rows));
      return Some(CancelledResult(processed, creditCount, sink.logs)), known, creditCount, processed, rows;
    }
    halt, creditCount := CreditsDone(isDecimal, writer, monitor, sink, known, processed, c.rows);
    if halt.Broken? { return Some(Raised), known, creditCount, processed, rows; }
    if halt.Cancelled? {
      return Some(CancelledResult(processed, creditCount, sink.logs)), known, creditCount, processed, rows;
    }
    ended := None;
  }

  /** Everything after it. */
  method PaymentPhase(isDecimal: DecimalTest, writer: CellWriter, stream: ChunkedReader, monitor: Monitor,
                      sink: ErrorSink,
                      known: set<Account>, creditCount: nat, rowsBefore: nat, ghost credits: seq<RowMap>,
                      ghost p: Drained)
    returns (result: Result, ghost rows: seq<RowMap>)
    requires PaymentsAre(isDecimal, LoadedFrom(isDecimal, credits), AcceptedCredits(isDecimal, credits), [], writer,
                         sink)
    requires known == Known(isDecimal, credits) && creditCount == |known| && rowsBefore == |credits|
    requires Ahead(p, [], stream.View()) && stream.rowNumber == 0 && monitor.last.Continue?
             && monitor.reports == FirstReports(isDecimal, credits)
    modifies stream, writer, writer.db`committed, writer.db`nextId, writer.db`statements, writer.db`faulted, monitor,
             sink
    ensures Succeeded(result) <==>
              monitor.last.Continue? && !writer.db.faulted && p.last.End? && !Refused(isDecimal, p.rows, known)
    ensures Succeeded(result) ==>
              && Sound(writer.db.committed, writer.db.nextId)
              && Replaced(writer.base, writer.db.committed, writer.slice, isDecimal, credits, p.rows)
              && result == FullResult(isDecimal, credits, p.rows)
              && monitor.reports == AllReports(isDecimal, credits, p.rows)
    ensures !Succeeded(result) ==> writer.db.committed == old(writer.db.committed)
    ensures WasCancelled(result) <==> monitor.last.Abort?
    ensures WasCancelled(result) ==>
              rows <= p.rows && CancelledLater(result, isDecimal, credits, rows)
    ensures result.Returned? && !result.success && !result.cancelled ==>
            result == CommitFailed(isDecimal, credits, p.rows)
    ensures monitor.reports <= AllReports(isDecimal, credits, p.rows)
    ensures writer.db.nextId >= old(writer.db.nextId)
  {
    var halt, processed;
    halt, processed, rows := LoadPayments(isDecimal, stream, writer, monitor, sink, known, creditCount, rowsBefore,
                                          LoadedFrom(isDecimal, credits), AcceptedCredits(isDecimal, credits), p);
    PaymentReportsPrefix(isDecimal, LoadedFrom(isDecimal, credits), rows, p.rows);
    if halt.Broken? { return Raised, rows; }
    if halt.Cancelled? { return CancelledResult(processed, creditCount, sink.logs), rows; }
    result := Finish(isDecimal, writer, monitor, sink, creditCount, processed, credits, p.rows);
  }

  /** What a run has to show, whatever ended it. */
  ghost predicate Accounted(result: Result, isDecimal: DecimalTest, c: Drained, p: Drained, batch: nat, last: Answer,
                            reports: seq<Report>) {
    && reports <= AllReports(isDecimal, c.rows, p.rows)
    && (WasCancelled(result) <==> last.Abort?)
    && (WasCancelled(result) ==> CancelledWithin(result, isDecimal, c.rows, p.rows, batch))
    && (result.Returned? && !result.success && !result.cancelled ==> result == CommitFailed(isDecimal, c.rows, p.rows))
    && (Succeeded(result) ==>
          result == FullResult(isDecimal, c.rows, p.rows) && reports == AllReports(isDecimal, c.rows, p.rows))
  }

  lemma CancelledInPayments(result: Result, isDecimal: DecimalTest, credits: seq<RowMap>, rows: seq<RowMap>,
                            payments: seq<RowMap>, batch: nat)
    requires rows <= payments && CancelledLater(result, isDecimal, credits, rows)
    ensures CancelledWithin(result, isDecimal, credits, payments, batch)
  {
    assert payments[..|rows|] == rows;
  }

  lemma CancelledInCredits(result: Result, isDecimal: DecimalTest, rows: seq<RowMap>, credits: seq<RowMap>,
                           payments: seq<RowMap>,
                           batch: nat)
    requires rows <= credits
    requires CancelledInLoop(result, isDecimal, rows, batch) || CancelledLater(result, isDecimal, credits, [])
    ensures CancelledWithin(result, isDecimal, credits, payments, batch)
  {
    if CancelledLater(result, isDecimal, credits, []) {
      CancelledInPayments(result, isDecimal, credits, [], payments, batch);
    } else {
      assert credits[..|rows|] == rows;
    }
  }

  lemma FirstReportsComeFirst(isDecimal: DecimalTest, credits: seq<RowMap>, payments: seq<RowMap>, reports: seq<Report>)
    requires reports <= FirstReports(isDecimal, credits)
    ensures reports <= AllReports(isDecimal, credits, payments)
  {
  }

  lemma EndedInCredits(result: Result, isDecimal: DecimalTest, rows: seq<RowMap>, c: Drained, p: Drained, batch: nat,
                       last: Answer, reports: seq<Report>)
    requires reports <= FirstReports(isDecimal, c.rows) && !Succeeded(result)
    requires result.Returned? ==>
               && rows <= c.rows && last.Abort? && result.cancelled
               && (CancelledInLoop(result, isDecimal, rows, batch) || CancelledLater(result, isDecimal, c.rows, []))
    requires last.Abort? ==> result.Returned?
    ensures Accounted(result, isDecimal, c, p, batch, last, reports)
  {
    FirstReportsComeFirst(isDecimal, c.rows, p.rows, reports);
    if result.Returned? { CancelledInCredits(result, isDecimal, rows, c.rows, p.rows, batch); }
  }

  lemma RaisedAtOnce(isDecimal: DecimalTest, c: Drained, p: Drained, batch: nat, last: Answer, reports: seq<Report>)
    requires reports == [] && last.Continue?
    ensures Accounted(Raised, isDecimal, c, p, batch, last, reports)
  {
  }

  /** The transaction is begun and the credits are loaded; a result, if the run ends there. */
  method FirstHalf(isDecimal: DecimalTest, db: Database<Cells, Cells>, slice: Slice, sizes: Sizes,
                   stream: ChunkedReader, monitor: Monitor, sink: ErrorSink, ghost c: Drained, ghost p: Drained)
    returns (ended: Option<Result>, writer: CellWriter, known: set<Account>, creditCount: nat, processed: nat)
    requires Sound(db.committed, db.nextId) && GoodSizes(sizes) && !db.faulted
    requires monitor.reports == [] && monitor.last.Continue? && sink.logs == [] && Ahead(c, [], stream.View())
             && stream.rowNumber == 0
    modifies db`nextId, db`statements, db`faulted, stream, monitor, sink
    ensures fresh(writer) && writer.db == db && writer.slice == slice && writer.sizes == sizes
            && writer.base == db.committed
    ensures ended.None? ==>
              && c.last.End? && PaymentsAre(isDecimal, LoadedFrom(isDecimal, c.rows),
                                            AcceptedCredits(isDecimal, c.rows), [], writer, sink)
              && known == Known(isDecimal, c.rows) && creditCount == |known| && processed == |c.rows|
              && monitor.last.Continue?
              && monitor.reports == FirstReports(isDecimal, c.rows)
    ensures ended.Some? ==> !Succeeded(ended.value) && (!monitor.last.Continue? || db.faulted || !c.last.End?)
    ensures ended.Some? ==> Accounted(ended.value, isDecimal, c, p, sizes.creditBatch, monitor.last, monitor.reports)
    ensures db.nextId >= old(db.nextId)
  {
    var ok;
    writer, ok := Begin(db, slice, sizes);
    known, creditCount, processed := {}, 0, 0;
    if !ok {
      RaisedAtOnce(isDecimal, c, p, sizes.creditBatch, monitor.last, monitor.reports);
      return Some(Raised), writer, known, creditCount, processed;
    }
    ghost var rows;
    ended, known, creditCount, processed, rows := CreditPhase(isDecimal, writer, stream, monitor, sink, c);
    if ended.Some? {
      EndedInCredits(ended.value, isDecimal, rows, c, p, sizes.creditBatch, monitor.last, monitor.reports);
    }
  }

  /** The payments are loaded and the transaction is committed. */
  method SecondHalf(isDecimal: DecimalTest, writer: CellWriter, stream: ChunkedReader, monitor: Monitor,
                    sink: ErrorSink,
                    known: set<Account>, creditCount: nat, rowsBefore: nat, ghost c: Drained, ghost p: Drained)
    returns (result: Result)
    requires PaymentsAre(isDecimal, LoadedFrom(isDecimal, c.rows), AcceptedCredits(isDecimal, c.rows), [], writer, sink)
    requires known == Known(isDecimal, c.rows) && creditCount == |known| && rowsBefore == |c.rows|
    requires Ahead(p, [], stream.View()) && stream.rowNumber == 0 && monitor.last.Continue?
             && monitor.reports == FirstReports(isDecimal, c.rows)
    modifies stream, writer, writer.db`committed, writer.db`nextId, writer.db`statements, writer.db`faulted, monitor,
             sink
    ensures Succeeded(result) <==>
              monitor.last.Continue? && !writer.db.faulted && p.last.End? && !Refused(isDecimal, p.rows, known)
    ensures Succeeded(result) ==>
              && Sound(writer.db.committed, writer.db.nextId)
              && Replaced(writer.base, writer.db.committed, writer.slice, isDecimal, c.rows, p.rows)
    ensures !Succeeded(result) ==> writer.db.committed == old(writer.db.committed)
    ensures Accounted(result, isDecimal, c, p, writer.sizes.creditBatch, monitor.last, monitor.reports)
    ensures writer.db.nextId >= old(writer.db.nextId)
  {
    ghost var rows;
    result, rows := PaymentPhase(isDecimal, writer, stream, monitor, sink, known, creditCount, rowsBefore, c.rows, p);
    if WasCancelled(result) { CancelledInPayments(result, isDecimal, c.rows, rows, p.rows, writer.sizes.creditBatch); }
  }

  /** The run, told what its two streams will deliver. */
  method Run(isDecimal: DecimalTest, db: Database<Cells, Cells>, slice: Slice, sizes: Sizes,
             creditStream: ChunkedReader, paymentStream: ChunkedReader, monitor: Monitor, sink: ErrorSink,
             ghost c: Drained, ghost p: Drained)
    returns (result: Result)
    requires Sound(db.committed, db.nextId) && GoodSizes(sizes) && !db.faulted
    requires monitor.reports == [] && monitor.last.Continue? && sink.logs == []
    requires creditStream != paymentStream
    requires Ahead(c, [], creditStream.View()) && Ahead(p, [], paymentStream.View())
    requires creditStream.rowNumber == 0 && paymentStream.rowNumber == 0
    modifies db, creditStream, paymentStream, monitor, sink
    ensures Succeeded(result) <==> Loadable(isDecimal, c, p) && monitor.last.Continue? && !db.faulted
    ensures Succeeded(result) ==>
              Sound(db.committed, db.nextId)
              && Replaced(old(db.committed), db.committed, slice, isDecimal, c.rows, p.rows)
    ensures !Succeeded(result) ==> db.committed == old(db.committed)
    ensures Accounted(result, isDecimal, c, p, sizes.creditBatch, monitor.last, monitor.reports)
    ensures db.nextId >= old(db.nextId)
  {
    var ended, writer, known, creditCount, processed :=
      FirstHalf(isDecimal, db, slice, sizes, creditStream, monitor, sink, c, p);
    if ended.Some? { return ended.value; }
    result := SecondHalf(isDecimal, writer, paymentStream, monitor, sink, known, creditCount, processed, c, p);
  }

  /**
   All or nothing.  The run succeeds exactly if both streams are read to their end, no two
   accepted payments have the same key, the callback never stopped it and the database did
   not fail; then exactly the slice is replaced.  Else nothing is.
   */
  method RunPipeline(isDecimal: DecimalTest, db: Database<Cells, Cells>, slice: Slice, sizes: Sizes,
                     creditStream: ChunkedReader, paymentStream: ChunkedReader, monitor: Monitor)
    returns (result: Result)
    requires Sound(db.committed, db.nextId) && GoodSizes(sizes) && !db.faulted
    requires monitor.reports == [] && monitor.last.Continue?
    requires creditStream != paymentStream && creditStream.rowNumber == 0 && paymentStream.rowNumber == 0
    modifies db, creditStream, paymentStream, monitor
    ensures var c, p := Drain(old(creditStream.View())), Drain(old(paymentStream.View()));
            && (Succeeded(result) <==> Loadable(isDecimal, c, p) && monitor.last.Continue? && !db.faulted)
            && (Succeeded(result) ==>
                  && Sound(db.committed, db.nextId)
                  && Replaced(old(db.committed), db.committed, slice, isDecimal, c.rows, p.rows))
            && (!Succeeded(result) ==> db.committed == old(db.committed))
            && Accounted(result, isDecimal, c, p, sizes.creditBatch, monitor.last, monitor.reports)
    ensures db.nextId >= old(db.nextId)
  {
    var sink := new ErrorSink();
    AllAhead(creditStream.View());
    AllAhead(paymentStream.View());
    result := Run(isDecimal, db, slice, sizes, creditStream, paymentStream, monitor, sink,
                  Drain(creditStream.View()), Drain(paymentStream.View()));
  }

  // ----- what a full run adds up to ----------------------------------------------------------------

  /** Every row read is an accepted credit, an accepted payment or one rejection in the log. */
  lemma RowsAreConserved(isDecimal: DecimalTest, credits: seq<RowMap>, payments: seq<RowMap>)
    ensures var result := FullResult(isDecimal, credits, payments);
            && result.processed == |AcceptedCredits(isDecimal, credits)| + result.payments + Rejections(result.errors)
            && result.credits <= |AcceptedCredits(isDecimal, credits)|
  {
    var known := Known(isDecimal, credits);
    CreditRowsAreCounted(isDecimal, credits);
    PaymentRowsAreCounted(isDecimal, payments, known);
    RejectionsConcat(AllCreditLogs(isDecimal, credits), AllPaymentLogs(isDecimal, payments, known));
    AccountsAtMost(AcceptedCredits(isDecimal, credits));
  }

  lemma {:induction false} AccountsAtMost(credits: seq<Credit<Cells>>)
    ensures |LastWins(credits).Keys| <= |credits|
    decreases |credits|
  {
    if credits != [] {
      var first := map[credits[0].account := credits[0].data];
      AccountsAtMost(credits[1..]);
      assert LastWins(credits).Keys == {credits[0].account} + LastWins(credits[1..]).Keys;
    }
  }

  ghost predicate HasAccount(credits: seq<Credit<Cells>>, a: Account) {
    exists i :: 0 <= i < |credits| && credits[i].account == a
  }

  /** The number of credits ingested is the number of different accounts of accepted credits. */
  lemma KnownExactly(isDecimal: DecimalTest, rows: seq<RowMap>, a: Account)
    ensures a in Known(isDecimal, rows) <==> HasAccount(AcceptedCredits(isDecimal, rows), a)
  {
    LastWinsKeys(AcceptedCredits(isDecimal, rows), a);
  }

  function Percents(reports: seq<Report>): (ps: seq<nat>)
    ensures |ps| == |reports| && forall i :: 0 <= i < |ps| ==> ps[i] == reports[i].percent
  {
    seq(|reports|, i requires 0 <= i < |reports| => reports[i].percent)
  }

  lemma PercentsConcat(a: seq<Report>, b: seq<Report>)
    ensures Percents(a + b) == Percents(a) + Percents(b)
  {
  }

  lemma PercentAt(n: nat, report: Report)
    ensures Percents(At(n, report)) == At(n, report.percent)
  {
    var ps := Percents(At(n, report));
    if n % REPORT_EVERY == 0 {
      assert At(n, report) == [report];
      assert |ps| == 1 && ps[0] == report.percent;
      assert ps == [report.percent];
    } else {
      assert At(n, report) == [];
      assert ps == [];
    }
  }

  lemma {:induction false} CreditPercents(isDecimal: DecimalTest, rows: seq<RowMap>)
    ensures Percents(CreditReportsOf(isDecimal, rows)) == CreditReports(|rows|)
    decreases |rows|
  {
    if rows != [] {
      var n, before := |rows|, rows[..|rows| - 1];
      var report := Report(n, CreditPhaseProgress(n), Recent(AllCreditLogs(isDecimal, rows)));
      CreditPercents(isDecimal, before);
      PercentsConcat(CreditReportsOf(isDecimal, before), At(n, report));
      PercentAt(n, report);
    }
  }

  lemma {:induction false} PaymentPercents(isDecimal: DecimalTest, from: Loaded, rows: seq<RowMap>)
    ensures Percents(PaymentReportsOf(isDecimal, from, rows)) == PaymentReports(|rows|, from.count)
    decreases |rows|
  {
    if rows != [] {
      var n, before := |rows|, rows[..|rows| - 1];
      PaymentPercents(isDecimal, from, before);
      PercentsConcat(PaymentReportsOf(isDecimal, from, before), At(n, PaymentReport(isDecimal, from, rows)));
      PercentAt(n, PaymentReport(isDecimal, from, rows));
    }
  }

  /** The percentages of a full run, from the 5 before it to the 100 after it, never go back. */
  lemma FullRunProgress(isDecimal: DecimalTest, credits: seq<RowMap>, payments: seq<RowMap>)
    requires |credits| < U32 && |payments| < U32
    ensures Ascending([5] + Percents(AllReports(isDecimal, credits, payments)) + [100], 5, 100)
  {
    var from := LoadedFrom(isDecimal, credits);
    var a, b := CreditReportsOf(isDecimal, credits), [CreditsReport(isDecimal, credits)];
    var c, d := PaymentReportsOf(isDecimal, from, payments), [LastReport(isDecimal, credits, payments)];
    CreditPercents(isDecimal, credits);
    PaymentPercents(isDecimal, from, payments);
    PercentsConcat(a, b);
    PercentsConcat(a + b, c);
    PercentsConcat(a + b + c, d);
    assert Percents(b) == [40] && Percents(d) == [95];
    ProgressNeverGoesBack(|credits|, |payments|, from.count);
  }

  /** However a run ends, its reports are the first ones of a full run, so progress never goes back. */
  lemma AnyRunProgress(isDecimal: DecimalTest, credits: seq<RowMap>, payments: seq<RowMap>, reports: seq<Report>)
    requires |credits| < U32 && |payments| < U32
    requires reports <= AllReports(isDecimal, credits, payments)
    ensures Ascending([5] + Percents(reports), 5, 100)
  {
    FullRunProgress(isDecimal, credits, payments);
    FirstReportsAscend(reports, AllReports(isDecimal, credits, payments));
  }

  lemma FirstReportsAscend(reports: seq<Report>, all: seq<Report>)
    requires reports <= all && Ascending([5] + Percents(all) + [100], 5, 100)
    ensures Ascending([5] + Percents(reports), 5, 100)
  {
    var a, b := [5] + Percents(all) + [100], [5] + Percents(reports);
    assert |b| <= |a| && forall i :: 0 <= i < |b| ==> a[i] == b[i];
  }
}
