/**
 Row validation: a row becomes a credit or a payment, or an entry in the error log; a cell
 that cannot be read becomes null and an entry in the error log.
 */
module Validation {
  import opened Collections
  import opened Options
  import opened Bytes
  import opened Trimming
  import opened Warehouse
  import opened Integers
  import Dates
  import JsonRowStream

  type RowMap = JsonRowStream.RowMap

  // ----- error log -----------------------------------------------------------------------------

  datatype Kind =
    | MissingAccount
    | UnknownAccount(account: Account)
    | InvalidDateFormat(raw: Text)
    | InvalidNumeric
    | PipelineError

  datatype ErrorLog = ErrorLog(rowNumber: nat, field: Name, kind: Kind)

  /** The entries of type VALIDATION_ERROR; each stands for a rejected row. */
  predicate Rejection(e: ErrorLog) {
    e.kind.MissingAccount? || e.kind.UnknownAccount?
  }

  function Rejections(logs: seq<ErrorLog>): nat
    decreases |logs|
  {
    if logs == [] then 0
    else Rejections(logs[..|logs| - 1]) + if Rejection(logs[|logs| - 1]) then 1 else 0
  }

  lemma {:induction false} RejectionsConcat(a: seq<ErrorLog>, b: seq<ErrorLog>)
    ensures Rejections(a + b) == Rejections(a) + Rejections(b)
    decreases |b|
  {
    if b == [] {
      assert a + b == a;
    } else {
      assert (a + b)[..|a + b| - 1] == a + b[..|b| - 1];
      RejectionsConcat(a, b[..|b| - 1]);
    }
  }

  class ErrorSink {
    var logs: seq<ErrorLog>

    constructor ()
      ensures logs == []
    {
      logs := [];
    }

    method Push(e: ErrorLog)
      modifies this
      ensures logs == old(logs) + [e]
    {
      logs := logs + [e];
    }
  }

  // ----- cells -----------------------------------------------------------------------------------

  type DecimalTest = seq<Byte> -> bool

  /** The fields the pipeline reads; the last one is not a field of the export. */
  datatype Name =
    | LoanAccountNumber | InstallmentNumber | FinalMaturityDate | FirstPaymentDate
    | OriginalLoanAmount | OutstandingPrincipalBalance | NominalInterestRate | TotalInterestAmount
    | KkdfRate | KkdfAmount | BsmvRate | BsmvAmount | LoanStartDate | LoanClosingDate
    | ActualPaymentDate | ScheduledPaymentDate | InstallmentAmount | PrincipalComponent
    | InterestComponent | KkdfComponent | BsmvComponent | RemainingPrincipal | RemainingInterest
    | RemainingKkdf | RemainingBsmv | Pipeline

  /** The field as it is named in the export. */
  function Key(name: Name): string {
    match name
    case LoanAccountNumber => "loan_account_number"
    case InstallmentNumber => "installment_number"
    case FinalMaturityDate => "final_maturity_date"
    case FirstPaymentDate => "first_payment_date"
    case OriginalLoanAmount => "original_loan_amount"
    case OutstandingPrincipalBalance => "outstanding_principal_balance"
    case NominalInterestRate => "nominal_interest_rate"
    case TotalInterestAmount => "total_interest_amount"
    case KkdfRate => "kkdf_rate"
    case KkdfAmount => "kkdf_amount"
    case BsmvRate => "bsmv_rate"
    case BsmvAmount => "bsmv_amount"
    case LoanStartDate => "loan_start_date"
    case LoanClosingDate => "loan_closing_date"
    case ActualPaymentDate => "actual_payment_date"
    case ScheduledPaymentDate => "scheduled_payment_date"
    case InstallmentAmount => "installment_amount"
    case PrincipalComponent => "principal_component"
    case InterestComponent => "interest_component"
    case KkdfComponent => "kkdf_component"
    case BsmvComponent => "bsmv_component"
    case RemainingPrincipal => "remaining_principal"
    case RemainingInterest => "remaining_interest"
    case RemainingKkdf => "remaining_kkdf"
    case RemainingBsmv => "remaining_bsmv"
    case Pipeline => "pipeline"
  }

  datatype Column = DateColumn(name: Name) | DecimalColumn(name: Name)

  /** The validated columns, in the order in which they are read. */
  const CREDIT_COLUMNS: seq<Column> := [
    DateColumn(FinalMaturityDate), DateColumn(FirstPaymentDate), DecimalColumn(OriginalLoanAmount),
    DecimalColumn(OutstandingPrincipalBalance), DecimalColumn(NominalInterestRate),
    DecimalColumn(TotalInterestAmount), DecimalColumn(KkdfRate), DecimalColumn(KkdfAmount),
    DecimalColumn(BsmvRate), DecimalColumn(BsmvAmount), DateColumn(LoanStartDate),
    DateColumn(LoanClosingDate)
  ]

  const PAYMENT_COLUMNS: seq<Column> := [
    DateColumn(ActualPaymentDate), DateColumn(ScheduledPaymentDate),
    DecimalColumn(InstallmentAmount), DecimalColumn(PrincipalComponent),
    DecimalColumn(InterestComponent), DecimalColumn(KkdfComponent), DecimalColumn(BsmvComponent),
    DecimalColumn(RemainingPrincipal), DecimalColumn(RemainingInterest),
    DecimalColumn(RemainingKkdf), DecimalColumn(RemainingBsmv)
  ]

  function Lookup(row: RowMap, name: Name): Option<Text> {
    if Key(name) in row then Some(row[Key(name)]) else None
  }

  /** A decimal comma becomes a decimal point. */
  function PointForComma(s: seq<Byte>): (r: seq<Byte>)
    ensures |r| == |s|
    ensures forall i :: 0 <= i < |s| ==> r[i] == if s[i] == ',' then '.' else s[i]
    decreases |s|
  {
    if s == [] then [] else [if s[0] == ',' then '.' else s[0]] + PointForComma(s[1..])
  }

  lemma SameLength(s: seq<Byte>, t: seq<Byte>)
    requires |s| == |t| > 0
    requires forall i :: 0 <= i < |s| ==> t[i] == if s[i] == ',' then '.' else s[i]
    ensures CharLength(s) == CharLength(t)
  {
  }

  lemma {:induction false} PointForCommaIsText(s: seq<Byte>, t: seq<Byte>)
    requires ValidUtf8(s) && |t| == |s|
    requires forall i :: 0 <= i < |s| ==> t[i] == if s[i] == ',' then '.' else s[i]
    ensures ValidUtf8(t)
    decreases |s|
  {
    if s != [] {
      SameLength(s, t);
      PointForCommaIsText(s[CharLength(s)..], t[CharLength(s)..]);
    }
  }

  function ParseDecimal(isDecimal: DecimalTest, value: Option<Text>): Dates.Parsed {
    if value.None? then Dates.Null
    else
      var raw := Trim(value.value);
      if raw == [] then Dates.Null
      else
        var normalized := PointForComma(raw);
        PointForCommaIsText(raw, normalized);
        if isDecimal(normalized) then Dates.Value(normalized) else Dates.Invalid(raw)
  }

  function ParseCell(isDecimal: DecimalTest, column: Column, value: Option<Text>): Dates.Parsed {
    if column.DateColumn? then Dates.ParseDate(value) else ParseDecimal(isDecimal, value)
  }

  function CellError(column: Column, raw: Text, rowNumber: nat): ErrorLog {
    ErrorLog(rowNumber, column.name, if column.DateColumn? then InvalidDateFormat(raw) else InvalidNumeric)
  }

  function CellValue(isDecimal: DecimalTest, row: RowMap, column: Column): Option<Text> {
    Dates.TextOf(ParseCell(isDecimal, column, Lookup(row, column.name)))
  }

  function CellErrors(isDecimal: DecimalTest, row: RowMap, column: Column, rowNumber: nat): seq<ErrorLog> {
    LogsOf(column, ParseCell(isDecimal, column, Lookup(row, column.name)), rowNumber)
  }

  function LogsOf(column: Column, parsed: Dates.Parsed, rowNumber: nat): seq<ErrorLog> {
    if parsed.Invalid? then [CellError(column, parsed.raw, rowNumber)] else []
  }

  function Values(isDecimal: DecimalTest, row: RowMap, columns: seq<Column>): (values: seq<Option<Text>>)
    ensures |values| == |columns|
    ensures forall i :: 0 <= i < |columns| ==> values[i] == CellValue(isDecimal, row, columns[i])
  {
    seq(|columns|, i requires 0 <= i < |columns| => CellValue(isDecimal, row, columns[i]))
  }

  function Errors(isDecimal: DecimalTest, row: RowMap, columns: seq<Column>, rowNumber: nat): seq<ErrorLog>
    decreases |columns|
  {
    if columns == [] then []
    else Errors(isDecimal, row, columns[..|columns| - 1], rowNumber)
         + CellErrors(isDecimal, row, columns[|columns| - 1], rowNumber)
  }

  /** The value of a cell; what cannot be read is logged. */
  method Collect(column: Column, parsed: Dates.Parsed, rowNumber: nat, sink: ErrorSink) returns (value: Option<Text>)
    modifies sink
    ensures value == Dates.TextOf(parsed) && sink.logs == old(sink.logs) + LogsOf(column, parsed, rowNumber)
  {
    assert sink.logs + [] == sink.logs;
    match parsed
    case Null => value := None;
    case Value(text) => value := Some(text);
    case Invalid(raw) =>
      sink.Push(CellError(column, raw, rowNumber));
      value := None;
  }

  lemma ValueStep(isDecimal: DecimalTest, row: RowMap, columns: seq<Column>, i: nat)
    requires i < |columns|
    ensures Values(isDecimal, row, columns[..i + 1])
            == Values(isDecimal, row, columns[..i]) + [CellValue(isDecimal, row, columns[i])]
  {
  }

  lemma ErrorStep(isDecimal: DecimalTest, row: RowMap, columns: seq<Column>, i: nat, rowNumber: nat)
    requires i < |columns|
    ensures Errors(isDecimal, row, columns[..i + 1], rowNumber)
            == Errors(isDecimal, row, columns[..i], rowNumber) + CellErrors(isDecimal, row, columns[i], rowNumber)
  {
    assert columns[..i + 1][..i] == columns[..i];
  }

  method CollectCells(isDecimal: DecimalTest, row: RowMap, columns: seq<Column>, rowNumber: nat, sink: ErrorSink)
    returns (values: seq<Option<Text>>)
    modifies sink
    ensures values == Values(isDecimal, row, columns)
    ensures sink.logs == old(sink.logs) + Errors(isDecimal, row, columns, rowNumber)
  {
    values := [];
    ghost var before := sink.logs;
    assert before + [] == before;
    for i := 0 to |columns|
      invariant values == Values(isDecimal, row, columns[..i])
      invariant sink.logs == before + Errors(isDecimal, row, columns[..i], rowNumber)
    {
      ValueStep(isDecimal, row, columns, i);
      ErrorStep(isDecimal, row, columns, i, rowNumber);
      Join(before, Errors(isDecimal, row, columns[..i], rowNumber), CellErrors(isDecimal, row, columns[i], rowNumber));
      var value := Collect(columns[i], ParseCell(isDecimal, columns[i], Lookup(row, columns[i].name)), rowNumber, sink);
      values := values + [value];
    }
    assert columns[..|columns|] == columns;
  }

  // ----- null or logged --------------------------------------------------------------------------

  predicate Blank(value: Option<Text>) {
    value.None? || Trim(value.value) == []
  }

  predicate Logged(logs: seq<ErrorLog>, name: Name, rowNumber: nat) {
    exists j :: 0 <= j < |logs| && logs[j].field == name && logs[j].rowNumber == rowNumber
  }

  predicate DistinctNames(columns: seq<Column>) {
    forall i, j :: 0 <= i < j < |columns| ==> columns[i].name != columns[j].name
  }

  /** Where the validated columns of a credit and of a payment stand in their list. */
  function Place(name: Name): nat {
    match name
    case FinalMaturityDate => 0
    case FirstPaymentDate => 1
    case OriginalLoanAmount => 2
    case OutstandingPrincipalBalance => 3
    case NominalInterestRate => 4
    case TotalInterestAmount => 5
    case KkdfRate => 6
    case KkdfAmount => 7
    case BsmvRate => 8
    case BsmvAmount => 9
    case LoanStartDate => 10
    case LoanClosingDate => 11
    case ActualPaymentDate => 0
    case ScheduledPaymentDate => 1
    case InstallmentAmount => 2
    case PrincipalComponent => 3
    case InterestComponent => 4
    case KkdfComponent => 5
    case BsmvComponent => 6
    case RemainingPrincipal => 7
    case RemainingInterest => 8
    case RemainingKkdf => 9
    case RemainingBsmv => 10
    case _ => 12
  }

  lemma CreditColumnsAreDistinct()
    ensures DistinctNames(CREDIT_COLUMNS)
  {
    assert forall i :: 0 <= i < |CREDIT_COLUMNS| ==> Place(CREDIT_COLUMNS[i].name) == i;
  }

  lemma PaymentColumnsAreDistinct()
    ensures DistinctNames(PAYMENT_COLUMNS)
  {
    assert forall i :: 0 <= i < |PAYMENT_COLUMNS| ==> Place(PAYMENT_COLUMNS[i].name) == i;
  }

  lemma ParsedNull(isDecimal: DecimalTest, column: Column, value: Option<Text>)
    ensures ParseCell(isDecimal, column, value).Null? <==> Blank(value)
  {
    if column.DateColumn? { Dates.NullExactly(value); }
  }

  /** The value of the column is neither blank nor readable. */
  predicate Unreadable(isDecimal: DecimalTest, row: RowMap, column: Column) {
    ParseCell(isDecimal, column, Lookup(row, column.name)).Invalid?
  }

  function Flags(isDecimal: DecimalTest, row: RowMap, columns: seq<Column>): (flags: seq<bool>)
    ensures |flags| == |columns|
    ensures forall i :: 0 <= i < |columns| ==> flags[i] == Unreadable(isDecimal, row, columns[i])
  {
    seq(|columns|, i requires 0 <= i < |columns| => Unreadable(isDecimal, row, columns[i]))
  }

  ghost predicate Flagged(columns: seq<Column>, flags: seq<bool>, name: Name)
    requires |flags| == |columns|
  {
    exists i :: 0 <= i < |columns| && columns[i].name == name && flags[i]
  }

  lemma {:induction false} LoggedExactly(isDecimal: DecimalTest, row: RowMap, columns: seq<Column>, rowNumber: nat,
                                         name: Name)
    ensures Logged(Errors(isDecimal, row, columns, rowNumber), name, rowNumber)
            <==> Flagged(columns, Flags(isDecimal, row, columns), name)
    decreases |columns|
  {
    if columns != [] {
      var n := |columns| - 1;
      LoggedExactly(isDecimal, row, columns[..n], rowNumber, name);
      LoggedInEither(Errors(isDecimal, row, columns[..n], rowNumber),
                     CellErrors(isDecimal, row, columns[n], rowNumber), name, rowNumber);
      LoggedInOne(isDecimal, row, columns[n], rowNumber, name);
      FlagsOfFirst(isDecimal, row, columns);
      LastFlag(columns, Flags(isDecimal, row, columns), name);
    }
  }

  lemma LoggedInOne(isDecimal: DecimalTest, row: RowMap, column: Column, rowNumber: nat, name: Name)
    ensures Logged(CellErrors(isDecimal, row, column, rowNumber), name, rowNumber)
            <==> column.name == name && Unreadable(isDecimal, row, column)
  {
    var parsed := ParseCell(isDecimal, column, Lookup(row, column.name));
    if parsed.Invalid? {
      LoggedSingle(CellError(column, parsed.raw, rowNumber), name, rowNumber);
    }
  }

  lemma LoggedSingle(e: ErrorLog, name: Name, rowNumber: nat)
    ensures Logged([e], name, rowNumber) <==> e.field == name && e.rowNumber == rowNumber
  {
    assert [e][0] == e;
  }

  lemma LoggedInEither(a: seq<ErrorLog>, b: seq<ErrorLog>, name: Name, rowNumber: nat)
    ensures Logged(a + b, name, rowNumber) <==> Logged(a, name, rowNumber) || Logged(b, name, rowNumber)
  {
    if j :| 0 <= j < |a| && a[j].field == name && a[j].rowNumber == rowNumber { assert (a + b)[j] == a[j]; }
    if j :| 0 <= j < |b| && b[j].field == name && b[j].rowNumber == rowNumber { assert (a + b)[|a| + j] == b[j]; }
  }

  lemma FlagsOfFirst(isDecimal: DecimalTest, row: RowMap, columns: seq<Column>)
    requires columns != []
    ensures var n := |columns| - 1;
            && Flags(isDecimal, row, columns[..n]) == Flags(isDecimal, row, columns)[..n]
            && Flags(isDecimal, row, columns)[n] == Unreadable(isDecimal, row, columns[n])
  {
  }

  lemma LastFlag(columns: seq<Column>, flags: seq<bool>, name: Name)
    requires columns != [] && |flags| == |columns|
    ensures var n := |columns| - 1;
            Flagged(columns, flags, name)
            <==> Flagged(columns[..n], flags[..n], name) || (columns[n].name == name && flags[n])
  {
    var n := |columns| - 1;
    if i :| 0 <= i < n && columns[..n][i].name == name && flags[..n][i] {
      assert columns[i].name == name && flags[i];
    }
    if i :| 0 <= i < |columns| && columns[i].name == name && flags[i] {
      assert i < n ==> columns[..n][i] == columns[i] && flags[..n][i] == flags[i];
    }
  }

  /** The cell is null exactly if its value was blank or it is in the log, and never for both reasons. */
  predicate Explained(cell: Option<Text>, value: Option<Text>, logs: seq<ErrorLog>, name: Name, rowNumber: nat) {
    (cell == None <==> Blank(value) || Logged(logs, name, rowNumber))
    && !(Blank(value) && Logged(logs, name, rowNumber))
  }

  lemma NullOrLogged(isDecimal: DecimalTest, row: RowMap, columns: seq<Column>, rowNumber: nat, i: nat)
    requires DistinctNames(columns) && i < |columns|
    ensures var name := columns[i].name;
            Explained(Values(isDecimal, row, columns)[i], Lookup(row, name),
                      Errors(isDecimal, row, columns, rowNumber), name, rowNumber)
  {
    var name := columns[i].name;
    LoggedExactly(isDecimal, row, columns, rowNumber, name);
    ParsedNull(isDecimal, columns[i], Lookup(row, name));
    assert forall j :: 0 <= j < |columns| && columns[j].name == name ==> j == i;
  }

  // ----- rows --------------------------------------------------------------------------------------

  /** The validated cells, and the row from which the other columns are copied. */
  datatype Cells = Cells(values: seq<Option<Text>>, copied: RowMap)

  function AccountOf(row: RowMap): Account {
    var value := Lookup(row, LoanAccountNumber);
    if value.Some? then Trim(value.value) else []
  }

  function CreditOf(isDecimal: DecimalTest, row: RowMap): Option<Credit<Cells>> {
    if AccountOf(row) == [] then None
    else Some(Credit(AccountOf(row), Cells(Values(isDecimal, row, CREDIT_COLUMNS), row)))
  }

  function CreditLogs(isDecimal: DecimalTest, row: RowMap, rowNumber: nat): seq<ErrorLog> {
    if AccountOf(row) == [] then [ErrorLog(rowNumber, LoanAccountNumber, MissingAccount)]
    else Errors(isDecimal, row, CREDIT_COLUMNS, rowNumber)
  }

  /** Every validated cell of an accepted credit is explained by its value or by the log of its row. */
  lemma CreditCellsExplained(isDecimal: DecimalTest, row: RowMap, rowNumber: nat, i: nat)
    requires CreditOf(isDecimal, row).Some? && i < |CREDIT_COLUMNS|
    ensures var cells, name := CreditOf(isDecimal, row).value.data, CREDIT_COLUMNS[i].name;
            Explained(cells.values[i], Lookup(row, name), CreditLogs(isDecimal, row, rowNumber), name, rowNumber)
  {
    CreditColumnsAreDistinct();
    NullOrLogged(isDecimal, row, CREDIT_COLUMNS, rowNumber, i);
  }

  function InstallmentOf(row: RowMap): int {
    var value := Lookup(row, InstallmentNumber);
    var n := if value.Some? then ParseI32(Trim(value.value)) else None;
    if n.Some? then n.value else 0
  }

  function PaymentOf(isDecimal: DecimalTest, row: RowMap, known: set<Account>): Option<Payment<Cells>> {
    if AccountOf(row) == [] || AccountOf(row) !in known then None
    else Some(Payment(AccountOf(row), InstallmentOf(row), Cells(Values(isDecimal, row, PAYMENT_COLUMNS), row)))
  }

  function PaymentLogs(isDecimal: DecimalTest, row: RowMap, known: set<Account>, rowNumber: nat): seq<ErrorLog> {
    if AccountOf(row) == [] then [ErrorLog(rowNumber, LoanAccountNumber, MissingAccount)]
    else if AccountOf(row) !in known then [ErrorLog(rowNumber, LoanAccountNumber, UnknownAccount(AccountOf(row)))]
    else Errors(isDecimal, row, PAYMENT_COLUMNS, rowNumber)
  }

  lemma PaymentCellsExplained(isDecimal: DecimalTest, row: RowMap, known: set<Account>, rowNumber: nat, i: nat)
    requires PaymentOf(isDecimal, row, known).Some? && i < |PAYMENT_COLUMNS|
    ensures var cells, name := PaymentOf(isDecimal, row, known).value.data, PAYMENT_COLUMNS[i].name;
            Explained(cells.values[i], Lookup(row, name), PaymentLogs(isDecimal, row, known, rowNumber), name,
                      rowNumber)
  {
    PaymentColumnsAreDistinct();
    NullOrLogged(isDecimal, row, PAYMENT_COLUMNS, rowNumber, i);
  }

  method ParseCreditRow(isDecimal: DecimalTest, row: RowMap, rowNumber: nat, sink: ErrorSink)
    returns (credit: Option<Credit<Cells>>)
    modifies sink
    ensures credit == CreditOf(isDecimal, row)
    ensures sink.logs == old(sink.logs) + CreditLogs(isDecimal, row, rowNumber)
  {
    var account := AccountOf(row);
    if account == [] {
      sink.Push(ErrorLog(rowNumber, LoanAccountNumber, MissingAccount));
      return None;
    }
    var values := CollectCells(isDecimal, row, CREDIT_COLUMNS, rowNumber, sink);
    credit := Some(Credit(account, Cells(values, row)));
  }

  method ParsePaymentRow(isDecimal: DecimalTest, row: RowMap, known: set<Account>, rowNumber: nat, sink: ErrorSink)
    returns (payment: Option<Payment<Cells>>)
    modifies sink
    ensures payment == PaymentOf(isDecimal, row, known)
    ensures sink.logs == old(sink.logs) + PaymentLogs(isDecimal, row, known, rowNumber)
  {
    var account := AccountOf(row);
    if account == [] {
      sink.Push(ErrorLog(rowNumber, LoanAccountNumber, MissingAccount));
      return None;
    }
    if account !in known {
      sink.Push(ErrorLog(rowNumber, LoanAccountNumber, UnknownAccount(account)));
      return None;
    }
    var values := CollectCells(isDecimal, row, PAYMENT_COLUMNS, rowNumber, sink);
    payment := Some(Payment(account, InstallmentOf(row), Cells(values, row)));
  }

  // ----- whole streams -------------------------------------------------------------------------------

  function OneOrNone<T>(o: Option<T>): seq<T> {
    if o.None? then [] else [o.value]
  }

  /** The credits a list of rows has; a row's number is its position, from one. */
  function AcceptedCredits(isDecimal: DecimalTest, rows: seq<RowMap>): seq<Credit<Cells>>
    decreases |rows|
  {
    if rows == [] then []
    else AcceptedCredits(isDecimal, rows[..|rows| - 1]) + OneOrNone(CreditOf(isDecimal, rows[|rows| - 1]))
  }

  function AllCreditLogs(isDecimal: DecimalTest, rows: seq<RowMap>): seq<ErrorLog>
    decreases |rows|
  {
    if rows == [] then []
    else AllCreditLogs(isDecimal, rows[..|rows| - 1]) + CreditLogs(isDecimal, rows[|rows| - 1], |rows|)
  }

  function AcceptedPayments(isDecimal: DecimalTest, rows: seq<RowMap>, known: set<Account>): seq<Payment<Cells>>
    decreases |rows|
  {
    if rows == [] then []
    else AcceptedPayments(isDecimal, rows[..|rows| - 1], known)
         + OneOrNone(PaymentOf(isDecimal, rows[|rows| - 1], known))
  }

  function AllPaymentLogs(isDecimal: DecimalTest, rows: seq<RowMap>, known: set<Account>): seq<ErrorLog>
    decreases |rows|
  {
    if rows == [] then []
    else AllPaymentLogs(isDecimal, rows[..|rows| - 1], known) + PaymentLogs(isDecimal, rows[|rows| - 1], known, |rows|)
  }

  lemma CellErrorIsNoRejection(isDecimal: DecimalTest, row: RowMap, column: Column, rowNumber: nat)
    ensures Rejections(CellErrors(isDecimal, row, column, rowNumber)) == 0
  {
    LogIsNoRejection(column, ParseCell(isDecimal, column, Lookup(row, column.name)), rowNumber);
  }

  lemma LogIsNoRejection(column: Column, parsed: Dates.Parsed, rowNumber: nat)
    ensures Rejections(LogsOf(column, parsed, rowNumber)) == 0
  {
    if parsed.Invalid? { OneRejection(CellError(column, parsed.raw, rowNumber)); }
  }

  lemma {:induction false} CellErrorsAreNoRejections(isDecimal: DecimalTest, row: RowMap, columns: seq<Column>,
                                                     rowNumber: nat)
    ensures Rejections(Errors(isDecimal, row, columns, rowNumber)) == 0
    decreases |columns|
  {
    if columns != [] {
      var n := |columns| - 1;
      CellErrorsAreNoRejections(isDecimal, row, columns[..n], rowNumber);
      CellErrorIsNoRejection(isDecimal, row, columns[n], rowNumber);
      RejectionsConcat(Errors(isDecimal, row, columns[..n], rowNumber),
                       CellErrors(isDecimal, row, columns[n], rowNumber));
    }
  }

  /** Every row is accepted or logged as rejected, not both and not twice. */
  lemma {:induction false} CreditRowsAreCounted(isDecimal: DecimalTest, rows: seq<RowMap>)
    ensures |AcceptedCredits(isDecimal, rows)| + Rejections(AllCreditLogs(isDecimal, rows)) == |rows|
    decreases |rows|
  {
    if rows != [] {
      var n := |rows| - 1;
      CreditRowsAreCounted(isDecimal, rows[..n]);
      OneCreditIsCounted(isDecimal, rows[n], |rows|);
      RejectionsConcat(AllCreditLogs(isDecimal, rows[..n]), CreditLogs(isDecimal, rows[n], |rows|));
    }
  }

  lemma OneCreditIsCounted(isDecimal: DecimalTest, row: RowMap, n: nat)
    ensures |OneOrNone(CreditOf(isDecimal, row))| + Rejections(CreditLogs(isDecimal, row, n)) == 1
  {
    OneRejection(ErrorLog(n, LoanAccountNumber, MissingAccount));
    CellErrorsAreNoRejections(isDecimal, row, CREDIT_COLUMNS, n);
  }

  lemma OneRejection(e: ErrorLog)
    ensures Rejections([e]) == if Rejection(e) then 1 else 0
  {
    assert [e][..0] == [];
    assert Rejections([]) == 0;
  }

  lemma OnePaymentIsCounted(isDecimal: DecimalTest, row: RowMap, known: set<Account>, n: nat)
    ensures |OneOrNone(PaymentOf(isDecimal, row, known))| + Rejections(PaymentLogs(isDecimal, row, known, n)) == 1
  {
    OneRejection(ErrorLog(n, LoanAccountNumber, MissingAccount));
    OneRejection(ErrorLog(n, LoanAccountNumber, UnknownAccount(AccountOf(row))));
    CellErrorsAreNoRejections(isDecimal, row, PAYMENT_COLUMNS, n);
  }

  lemma {:induction false} PaymentRowsAreCounted(isDecimal: DecimalTest, rows: seq<RowMap>, known: set<Account>)
    ensures |AcceptedPayments(isDecimal, rows, known)| + Rejections(AllPaymentLogs(isDecimal, rows, known)) == |rows|
    decreases |rows|
  {
    if rows != [] {
      var n := |rows| - 1;
      PaymentRowsAreCounted(isDecimal, rows[..n], known);
      OnePaymentIsCounted(isDecimal, rows[n], known, |rows|);
      RejectionsConcat(AllPaymentLogs(isDecimal, rows[..n], known), PaymentLogs(isDecimal, rows[n], known, |rows|));
    }
  }

  predicate AllKnown(payments: seq<Payment<Cells>>, known: set<Account>) {
    forall i :: 0 <= i < |payments| ==> payments[i].account in known
  }

  lemma {:induction false} AcceptedPaymentsAreKnown(isDecimal: DecimalTest, rows: seq<RowMap>, known: set<Account>)
    ensures AllKnown(AcceptedPayments(isDecimal, rows, known), known)
    decreases |rows|
  {
    if rows != [] {
      AcceptedPaymentsAreKnown(isDecimal, rows[..|rows| - 1], known);
      assert AllKnown(OneOrNone(PaymentOf(isDecimal, rows[|rows| - 1], known)), known);
    }
  }
}
