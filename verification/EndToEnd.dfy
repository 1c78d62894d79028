/**
 From the bank's rows to the warehouse: the export, the reader and the pipeline together.
 */
module EndToEnd {
  import opened Bytes
  import opened Warehouse
  import opened SnapshotWriter
  import opened Validation
  import opened JsonRowStream
  import opened BankExport
  import opened ExportReading
  import opened Pipeline
  import Json

  /** What the plain export of rows delivers, in whatever chunks. */
  lemma PlainExportDelivers(rows: seq<Json.Row>, r: Reader)
    requires r == Open(SinglePass(Encoded(rows)))
    ensures Drain(r).rows == Maps(rows) && Drain(r).last == End
  {
    SinglePassRoundTrip(rows);
  }

  /**
   Whatever texts the rows hold and however the bytes arrive, the slice ends up with the
   accepted rows of the bank, unless the callback or the database stops the run or two
   accepted payments have the same key.
   */
  method LoadPlainExport(isDecimal: DecimalTest, db: Database<Cells, Cells>, slice: Slice, monitor: Monitor,
                         creditChunks: seq<seq<Byte>>, paymentChunks: seq<seq<Byte>>,
                         ghost credits: seq<Json.Row>, ghost payments: seq<Json.Row>)
    returns (result: Result)
    requires Sound(db.committed, db.nextId) && !db.faulted && monitor.reports == [] && monitor.last.Continue?
    requires Flatten(creditChunks) == SinglePass(Encoded(credits))
    requires Flatten(paymentChunks) == SinglePass(Encoded(payments))
    modifies db, monitor
    ensures Succeeded(result)
            <==> && !Refused(isDecimal, Maps(payments), Known(isDecimal, Maps(credits)))
                 && monitor.last.Continue? && !db.faulted
    ensures Succeeded(result) ==>
              Replaced(old(db.committed), db.committed, slice, isDecimal, Maps(credits), Maps(payments))
    ensures !Succeeded(result) ==> db.committed == old(db.committed)
  {
    var creditStream := new ChunkedReader(creditChunks, false);
    var paymentStream := new ChunkedReader(paymentChunks, false);
    PlainExportDelivers(credits, creditStream.View());
    PlainExportDelivers(payments, paymentStream.View());
    result := RunPipeline(isDecimal, db, slice, ADAPTER_SIZES, creditStream, paymentStream, monitor);
  }

  lemma CutExportFails(rows: seq<Json.Row>, multiplier: int, limit: int, r: Reader)
    requires CutInsideRow(Repeat(Encoded(rows), multiplier), 2, true, limit)
    requires r == Open(Multiplied(Encoded(rows), multiplier, limit))
    ensures !Drain(r).last.End?
  {
    MultipliedIsRead(rows, multiplier, limit);
  }

  /** An export cut inside a row changes nothing, whichever of the two it is. */
  method LoadCutExport(isDecimal: DecimalTest, db: Database<Cells, Cells>, slice: Slice, monitor: Monitor,
                       creditChunks: seq<seq<Byte>>, paymentChunks: seq<seq<Byte>>,
                       ghost cutCredits: bool, ghost rows: seq<Json.Row>, ghost multiplier: int, ghost limit: int)
    returns (result: Result)
    requires Sound(db.committed, db.nextId) && !db.faulted && monitor.reports == [] && monitor.last.Continue?
    requires CutInsideRow(Repeat(Encoded(rows), multiplier), 2, true, limit)
    requires Flatten(if cutCredits then creditChunks else paymentChunks) == Multiplied(Encoded(rows), multiplier, limit)
    modifies db, monitor
    ensures !Succeeded(result) && db.committed == old(db.committed)
  {
    var creditStream := new ChunkedReader(creditChunks, false);
    var paymentStream := new ChunkedReader(paymentChunks, false);
    CutExportFails(rows, multiplier, limit, if cutCredits then creditStream.View() else paymentStream.View());
    result := RunPipeline(isDecimal, db, slice, ADAPTER_SIZES, creditStream, paymentStream, monitor);
  }

  lemma BrokenExportFails(rows: seq<Json.Row>, size: nat, r: Reader)
    requires size < |SinglePass(Encoded(rows))|
    requires r == Reader(SinglePass(Encoded(rows))[..size], true, false, false, 0)
    ensures !Drain(r).last.End?
  {
    BreakIsNoticed(rows, size);
  }

  /** A connection that breaks anywhere inside either export changes nothing. */
  method LoadBrokenExport(isDecimal: DecimalTest, db: Database<Cells, Cells>, slice: Slice, monitor: Monitor,
                          creditChunks: seq<seq<Byte>>, paymentChunks: seq<seq<Byte>>,
                          breakCredits: bool, ghost rows: seq<Json.Row>, ghost size: nat)
    returns (result: Result)
    requires Sound(db.committed, db.nextId) && !db.faulted && monitor.reports == [] && monitor.last.Continue?
    requires size < |SinglePass(Encoded(rows))|
    requires Flatten(if breakCredits then creditChunks else paymentChunks) == SinglePass(Encoded(rows))[..size]
    modifies db, monitor
    ensures !Succeeded(result) && db.committed == old(db.committed)
  {
    var creditStream := new ChunkedReader(creditChunks, breakCredits);
    var paymentStream := new ChunkedReader(paymentChunks, !breakCredits);
    BrokenExportFails(rows, size, if breakCredits then creditStream.View() else paymentStream.View());
    result := RunPipeline(isDecimal, db, slice, ADAPTER_SIZES, creditStream, paymentStream, monitor);
  }

  lemma ClosedExportDelivers(rows: seq<Json.Row>, size: nat, r: Reader)
    requires size <= |SinglePass(Encoded(rows))| && r == Open(SinglePass(Encoded(rows))[..size])
    ensures Drain(r) == Received(rows, size)
  {
    ClosedExportIsRead(rows, size);
  }

  /**
   Connections that are closed without notice, each after any number of bytes of its plain
   export: if neither cut is inside a row, the slice is replaced by the rows before the cuts.
   */
  method LoadClosedExports(isDecimal: DecimalTest, db: Database<Cells, Cells>, slice: Slice, monitor: Monitor,
                           creditChunks: seq<seq<Byte>>, paymentChunks: seq<seq<Byte>>,
                           ghost credits: seq<Json.Row>, ghost creditSize: nat,
                           ghost payments: seq<Json.Row>, ghost paymentSize: nat)
    returns (result: Result)
    requires Sound(db.committed, db.nextId) && !db.faulted && monitor.reports == [] && monitor.last.Continue?
    requires creditSize <= |SinglePass(Encoded(credits))| && paymentSize <= |SinglePass(Encoded(payments))|
    requires Flatten(creditChunks) == SinglePass(Encoded(credits))[..creditSize]
    requires Flatten(paymentChunks) == SinglePass(Encoded(payments))[..paymentSize]
    modifies db, monitor
    ensures var c, p := Received(credits, creditSize), Received(payments, paymentSize);
            && (Succeeded(result) <==> Loadable(isDecimal, c, p) && monitor.last.Continue? && !db.faulted)
            && (Succeeded(result) ==> Replaced(old(db.committed), db.committed, slice, isDecimal, c.rows, p.rows))
    ensures !Succeeded(result) ==> db.committed == old(db.committed)
  {
    var creditStream := new ChunkedReader(creditChunks, false);
    var paymentStream := new ChunkedReader(paymentChunks, false);
    ClosedExportDelivers(credits, creditSize, creditStream.View());
    ClosedExportDelivers(payments, paymentSize, paymentStream.View());
    result := RunPipeline(isDecimal, db, slice, ADAPTER_SIZES, creditStream, paymentStream, monitor);
  }

  lemma RepeatedPaymentsRefused(isDecimal: DecimalTest, rows: seq<Json.Row>, multiplier: int, limit: int,
                                known: set<Account>, r: Reader)
    requires AcceptedPayments(isDecimal, Maps(rows), known) != []
    requires multiplier >= 2 && 2 * |rows| <= WholeRows(Repeat(Encoded(rows), multiplier), 2, true, limit)
    requires r == Open(Multiplied(Encoded(rows), multiplier, limit))
    ensures Refused(isDecimal, Drain(r).rows, known)
  {
    MultipliedIsRead(rows, multiplier, limit);
    TwoPasses(rows, multiplier, WholeRows(Repeat(Encoded(rows), multiplier), 2, true, limit));
    RepeatedIsRefused(isDecimal, Maps(rows), known);
    RefusedStays(isDecimal, Maps(rows) + Maps(rows), Drain(r).rows, known);
  }

  /** A payments export of at least two whole passes is never loaded, if one of its payments is accepted. */
  method LoadRepeatedPayments(isDecimal: DecimalTest, db: Database<Cells, Cells>, slice: Slice, monitor: Monitor,
                              creditChunks: seq<seq<Byte>>, paymentChunks: seq<seq<Byte>>,
                              ghost credits: seq<Json.Row>, ghost payments: seq<Json.Row>, ghost multiplier: int,
                              ghost limit: int)
    returns (result: Result)
    requires Sound(db.committed, db.nextId) && !db.faulted && monitor.reports == [] && monitor.last.Continue?
    requires Flatten(creditChunks) == SinglePass(Encoded(credits))
    requires Flatten(paymentChunks) == Multiplied(Encoded(payments), multiplier, limit)
    requires multiplier >= 2 && 2 * |payments| <= WholeRows(Repeat(Encoded(payments), multiplier), 2, true, limit)
    requires AcceptedPayments(isDecimal, Maps(payments), Known(isDecimal, Maps(credits))) != []
    modifies db, monitor
    ensures !Succeeded(result) && db.committed == old(db.committed)
  {
    var creditStream := new ChunkedReader(creditChunks, false);
    var paymentStream := new ChunkedReader(paymentChunks, false);
    PlainExportDelivers(credits, creditStream.View());
    RepeatedPaymentsRefused(isDecimal, payments, multiplier, limit, Known(isDecimal, Maps(credits)),
                            paymentStream.View());
    result := RunPipeline(isDecimal, db, slice, ADAPTER_SIZES, creditStream, paymentStream, monitor);
  }
}
