/**
 What the adapter reads back from the bank's exports: from a whole one, from a multiplied one
 that a size limit cuts, and from one that the connection cuts.
 */
module ExportReading {
  import opened Collections
  import opened Options
  import opened Bytes
  import opened Json
  import opened Framing
  import opened JsonRowStream
  import opened BankExport

  function Maps(rows: seq<Json.Row>): seq<RowMap>
    ensures |Maps(rows)| == |rows|
    decreases |rows|
  {
    if rows == [] then [] else [ToMap(rows[0])] + Maps(rows[1..])
  }

  // ----- reading on ------------------------------------------------------------------------

  /** From one reader, the rows come first, and then what the other reader delivers. */
  ghost predicate Yields(r: Reader, rows: seq<RowMap>, r': Reader) {
    forall d :: Delivers(r', d) ==> Delivers(r, Prepend(rows, d))
  }

  lemma YieldsThen(r: Reader, a: seq<RowMap>, r1: Reader, b: seq<RowMap>, r2: Reader)
    requires Yields(r, a, r1) && Yields(r1, b, r2)
    ensures Yields(r, a + b, r2)
  {
    forall d | Delivers(r2, d) ensures Delivers(r, Prepend(a + b, d)) {
      assert Delivers(r, Prepend(a, Prepend(b, d)));
      Join(a, b, d.rows);
    }
  }

  lemma YieldsNothing(r: Reader)
    ensures Yields(r, [], r)
  {
    forall d | Delivers(r, d) ensures Delivers(r, Prepend([], d)) {
      assert [] + d.rows == d.rows;
    }
  }

  /** Two readers with the same next step. */
  lemma SameNext(r: Reader, r': Reader)
    requires ReadNext(r) == ReadNext(r')
    ensures Yields(r, [], r')
  {
    RowConsumes(r);
    RowConsumes(r');
    forall d | Delivers(r', d) ensures Delivers(r, Prepend([], d)) {
      DeliversAll(r', d);
      DeliversAll(r, d);
      assert [] + d.rows == d.rows;
    }
  }

  /** A reader in the middle of an open array. */
  function Reading(rest: seq<Byte>, broken: bool, n: nat): Reader {
    Reader(rest, broken, true, false, n)
  }

  // ----- one row ---------------------------------------------------------------------------

  /** What a complete row in front of anything looks like to the reader. */
  ghost predicate Readable(part: Part, row: RowMap) {
    part != [] && part[0] == '{' && forall rest :: ReadBefore(part, row, rest)
  }

  ghost predicate ReadBefore(part: Part, row: RowMap, rest: seq<Byte>) {
    Frame(OUTSIDE, part + rest) == Some(|part|) && ParseRow(part) == Some(row)
  }

  lemma EncodedIsReadable(row: Json.Row)
    ensures Readable(EncodeRow(row), ToMap(row))
  {
    RowReadBack(row);
    forall rest ensures ReadBefore(EncodeRow(row), ToMap(row), rest) {
      RowIsFramed(row, rest);
    }
  }

  lemma SkipToRow(part: Part, first: bool, rest: seq<Byte>)
    requires part != [] && part[0] == '{'
    ensures SkipFiller(Candidate(part, first) + rest) == part + rest
  {
    var s := part + rest;
    assert SkipFiller(s) == s;
    if first {
      assert Candidate(part, first) + rest == s;
    } else {
      Join(SEPARATOR, part, rest);
      SkipFillerAll(SEPARATOR, s);
    }
  }

  lemma RowIsNext(part: Part, row: RowMap, first: bool, rest: seq<Byte>, broken: bool, n: nat)
    requires Readable(part, row)
    ensures ReadNext(Reading(Candidate(part, first) + rest, broken, n))
            == Step(Reading(rest, broken, n + 1), Item.Row(row))
  {
    SkipToRow(part, first, rest);
    var s := part + rest;
    assert s[..|part|] == part && s[|part|..] == rest;
    assert ReadBefore(part, row, rest);
  }

  lemma NextRowYields(r: Reader)
    requires ReadNext(r).item.Row?
    ensures Yields(r, [ReadNext(r).item.row], ReadNext(r).reader)
  {
    RowConsumes(r);
    var row, r' := ReadNext(r).item.row, ReadNext(r).reader;
    forall d | Delivers(r', d) ensures Delivers(r, Prepend([row], d)) {
      DeliversAll(r', d);
      DeliversAll(r, Prepend([row], d));
    }
  }

  /** A complete row, however it is separated from what was before, is read as it is. */
  lemma CandidateIsRead(part: Part, row: RowMap, first: bool, rest: seq<Byte>, broken: bool, n: nat)
    requires Readable(part, row)
    ensures Yields(Reading(Candidate(part, first) + rest, broken, n), [row], Reading(rest, broken, n + 1))
  {
    RowIsNext(part, row, first, rest, broken, n);
    NextRowYields(Reading(Candidate(part, first) + rest, broken, n));
  }

  // ----- whole rows ------------------------------------------------------------------------

  /** Each part is a row in the reader's eyes. */
  ghost predicate AllReadable(parts: seq<Part>, maps: seq<RowMap>) {
    |parts| == |maps| && forall i :: 0 <= i < |parts| ==> Readable(parts[i], maps[i])
  }

  lemma {:induction false} EncodedAllReadable(rows: seq<Json.Row>)
    ensures AllReadable(Encoded(rows), Maps(rows))
    decreases |rows|
  {
    if rows != [] {
      EncodedIsReadable(rows[0]);
      EncodedAllReadable(rows[1..]);
      assert forall i :: 0 < i < |rows| ==>
          Encoded(rows)[i] == Encoded(rows[1..])[i - 1] && Maps(rows)[i] == Maps(rows[1..])[i - 1];
    }
  }

  /** The rows with their separators. */
  function Joined(parts: seq<Part>, first: bool): seq<Byte>
    decreases |parts|
  {
    if parts == [] then [] else Candidate(parts[0], first) + Joined(parts[1..], false)
  }

  lemma {:induction false} JoinedIsRead(parts: seq<Part>, maps: seq<RowMap>, first: bool, rest: seq<Byte>,
                                        broken: bool, n: nat)
    requires AllReadable(parts, maps)
    ensures Yields(Reading(Joined(parts, first) + rest, broken, n), maps, Reading(rest, broken, n + |parts|))
    decreases |parts|
  {
    if parts == [] {
      assert [] + rest == rest;
      YieldsNothing(Reading(rest, broken, n));
    } else {
      var later := Joined(parts[1..], false);
      Join(Candidate(parts[0], first), later, rest);
      CandidateIsRead(parts[0], maps[0], first, later + rest, broken, n);
      JoinedIsRead(parts[1..], maps[1..], false, rest, broken, n + 1);
      assert maps == [maps[0]] + maps[1..];
      YieldsThen(Reading(Joined(parts, first) + rest, broken, n), [maps[0]],
                 Reading(later + rest, broken, n + 1), maps[1..], Reading(rest, broken, n + |parts|));
    }
  }

  lemma FirstAreReadable(parts: seq<Part>, maps: seq<RowMap>, k: nat)
    requires AllReadable(parts, maps) && k <= |parts|
    ensures AllReadable(parts[..k], maps[..k])
  {
  }

  /** The first k rows, and then a tail without rows. */
  lemma RowsThenTail(parts: seq<Part>, maps: seq<RowMap>, k: nat, first: bool, tail: seq<Byte>, broken: bool, n: nat,
                     last: Item)
    requires AllReadable(parts, maps) && k <= |parts|
    requires Delivers(Reading(tail, broken, n + k), Drained([], last, n + k))
    ensures Delivers(Reading(Joined(parts[..k], first) + tail, broken, n), Drained(maps[..k], last, n + k))
  {
    FirstAreReadable(parts, maps, k);
    JoinedIsRead(parts[..k], maps[..k], first, tail, broken, n);
    NothingMore(maps[..k], last, n + k);
    RowsThen(Reading(Joined(parts[..k], first) + tail, broken, n), maps[..k], Reading(tail, broken, n + k),
             Drained([], last, n + k));
  }

  lemma RowsThen(r: Reader, rows: seq<RowMap>, r': Reader, d: Drained)
    requires Yields(r, rows, r') && Delivers(r', d)
    ensures Delivers(r, Prepend(rows, d))
  {
  }

  lemma NothingMore(rows: seq<RowMap>, last: Item, n: nat)
    ensures Prepend(rows, Drained([], last, n)) == Drained(rows, last, n)
  {
    assert rows + [] == rows;
  }

  lemma OpeningIsSkipped(filler: seq<Byte>, rest: seq<Byte>, broken: bool)
    requires forall i :: 0 <= i < |filler| ==> Filler(filler[i])
    ensures Yields(Reader(['['] + (filler + rest), broken, false, false, 0), [], Reading(rest, broken, 0))
  {
    var s, t := ['['] + (filler + rest), filler + rest;
    assert s[1..] == t;
    assert AfterFirst(s, '[') == Some(t);
    SkipFillerAll(filler, rest);
    SameNext(Reader(s, broken, false, false, 0), Reading(rest, broken, 0));
  }

  // ----- tails -----------------------------------------------------------------------------

  /** Nothing, a separator or part of one before the end of the array: no row, no error. */
  lemma FillerThenClosing(filler: seq<Byte>, n: nat)
    requires forall i :: 0 <= i < |filler| ==> Filler(filler[i])
    ensures Delivers(Reading(filler + CLOSING, false, n), Drained([], End, n))
  {
    SkipFillerAll(filler, CLOSING);
    assert CLOSING[1..] == [']'];
    assert SkipFiller(CLOSING) == [']'];
  }

  /** A row cut after its opening brace: an error, never a row. */
  lemma CutRowIsAnError(part: Part, row: RowMap, filler: seq<Byte>, cut: nat, tail: seq<Byte>, broken: bool, n: nat)
    requires forall i :: 0 <= i < |filler| ==> Filler(filler[i])
    requires forall i :: 0 <= i < |tail| ==> tail[i] != '}'
    requires Readable(part, row) && 0 < cut < |part|
    ensures Delivers(Reading(filler + part[..cut] + tail, broken, n), Drained([], ParseError, n))
  {
    var s := part[..cut] + tail;
    assert s[0] == '{' && SkipFiller(s) == s;
    Join(filler, part[..cut], tail);
    SkipFillerAll(filler, s);
    assert part + [] == part;
    assert ReadBefore(part, row, []);
    CutIsNotFramed(part, part[..cut], part[cut..], tail);
  }

  /** Between rows a broken source is an error, and one that was closed looks like the end. */
  function Stop(broken: bool): Item {
    if broken then HttpError else End
  }

  lemma FillerRunsOut(filler: seq<Byte>, broken: bool, n: nat)
    requires forall i :: 0 <= i < |filler| ==> Filler(filler[i])
    ensures Delivers(Reading(filler, broken, n), Drained([], Stop(broken), n))
  {
    SkipFillerAll(filler, []);
    assert filler + [] == filler;
  }

  function Before(first: bool): seq<Byte> {
    if first then [] else SEPARATOR
  }

  lemma CutCandidate(part: Part, first: bool, keep: nat)
    requires keep < |Candidate(part, first)|
    ensures Candidate(part, first)[..keep]
            == if keep > |Before(first)| then Before(first) + part[..keep - |Before(first)|] else Before(first)[..keep]
    ensures |Before(first)| == |Candidate(part, first)| - |part|
  {
  }

  /** A cut candidate before the end of the array. */
  lemma CutThenClosing(part: Part, row: RowMap, first: bool, keep: nat, n: nat)
    requires Readable(part, row) && keep < |Candidate(part, first)|
    ensures Delivers(Reading(Candidate(part, first)[..keep] + CLOSING, false, n),
                     Drained([], if keep > |Candidate(part, first)| - |part| then ParseError else End, n))
  {
    CutCandidate(part, first, keep);
    var before := Before(first);
    if keep > |before| {
      CutRowIsAnError(part, row, before, keep - |before|, CLOSING, false, n);
    } else {
      FillerThenClosing(before[..keep], n);
    }
  }

  lemma RowRunsOut(part: Part, row: RowMap, filler: seq<Byte>, cut: nat, broken: bool, n: nat)
    requires forall i :: 0 <= i < |filler| ==> Filler(filler[i])
    requires Readable(part, row) && 0 < cut < |part|
    ensures Delivers(Reading(filler + part[..cut], broken, n), Drained([], ParseError, n))
  {
    CutRowIsAnError(part, row, filler, cut, [], broken, n);
    assert filler + part[..cut] + [] == filler + part[..cut];
  }

  /** A cut candidate and nothing more. */
  lemma CutThenNothing(part: Part, row: RowMap, first: bool, keep: nat, broken: bool, n: nat)
    requires Readable(part, row) && keep < |Candidate(part, first)|
    ensures Delivers(Reading(Candidate(part, first)[..keep], broken, n),
                     Drained([], if keep > |Candidate(part, first)| - |part| then ParseError else Stop(broken), n))
  {
    CutCandidate(part, first, keep);
    var before := Before(first);
    if keep > |before| {
      RowRunsOut(part, row, before, keep - |before|, broken, n);
    } else {
      FillerRunsOut(before[..keep], broken, n);
    }
  }

  // ----- the plain export ------------------------------------------------------------------

  lemma {:induction false} ListingIsJoined(parts: seq<Part>, first: bool)
    ensures Listing(parts, first) == Joined(parts, first) + CLOSING
    decreases |parts|
  {
    if parts == [] {
      assert [] + CLOSING == CLOSING;
    } else {
      ListingIsJoined(parts[1..], false);
      Join(Candidate(parts[0], first), Joined(parts[1..], false), CLOSING);
    }
  }

  lemma OpeningThen(rest: seq<Byte>, d: Drained)
    requires Delivers(Reading(rest, false, 0), d)
    ensures Delivers(Open(OPENING + rest), d)
  {
    assert OPENING + rest == ['['] + (['\n'] + rest);
    OpeningIsSkipped(['\n'], rest, false);
    assert [] + d.rows == d.rows;
    assert Prepend([], d) == d;
  }

  lemma ListingIsRead(parts: seq<Part>, maps: seq<RowMap>)
    requires AllReadable(parts, maps)
    ensures Delivers(Reading(Listing(parts, true), false, 0), Drained(maps, End, |maps|))
  {
    var end := Drained([], End, |maps|);
    ListingIsJoined(parts, true);
    ClosingIsRead(|maps|);
    JoinedIsRead(parts, maps, true, CLOSING, false, 0);
    NothingMore(maps, End, |maps|);
  }

  lemma ClosingIsRead(n: nat)
    ensures Delivers(Reading(CLOSING, false, n), Drained([], End, n))
  {
    FillerThenClosing([], n);
    assert [] + CLOSING == CLOSING;
  }

  /**
   Round trip.  The plain export of any list of rows, whatever bytes their texts hold,
   is read back as exactly those rows in order, then the end, all of them counted.
   */
  lemma SinglePassRoundTrip(rows: seq<Json.Row>)
    ensures Drain(Open(SinglePass(Encoded(rows)))) == Drained(Maps(rows), End, |rows|)
  {
    EncodedAllReadable(rows);
    ListingIsRead(Encoded(rows), Maps(rows));
    OpeningThen(Listing(Encoded(rows), true), Drained(Maps(rows), End, |rows|));
    DeliversAll(Open(SinglePass(Encoded(rows))), Drained(Maps(rows), End, |rows|));
  }

  // ----- the multiplied, size-limited export -------------------------------------------------

  /** What follows the rows sent whole. */
  function LimitedTail(queue: seq<Part>, sent: int, first: bool, limit: int): seq<Byte>
    decreases |queue|
  {
    if queue == [] then CLOSING
    else
      var c := Candidate(queue[0], first);
      if sent + |c| > limit then (if limit > sent then c[..limit - sent] else []) + CLOSING
      else LimitedTail(queue[1..], sent + |c|, false, limit)
  }

  lemma {:induction false} LimitedInTwo(queue: seq<Part>, sent: int, first: bool, limit: int)
    ensures Limited(queue, sent, first, limit)
            == Joined(queue[..WholeRows(queue, sent, first, limit)], first) + LimitedTail(queue, sent, first, limit)
    decreases |queue|
  {
    var k := WholeRows(queue, sent, first, limit);
    if k == 0 {
      var tail := LimitedTail(queue, sent, first, limit);
      assert queue[..0] == [] && [] + tail == tail;
    } else {
      var c, later := Candidate(queue[0], first), queue[1..];
      LimitedInTwo(later, sent + |c|, false, limit);
      assert queue[..k][0] == queue[0] && queue[..k][1..] == later[..k - 1];
      Join(c, Joined(later[..k - 1], false), LimitedTail(later, sent + |c|, false, limit));
    }
  }

  /** The tail is the end of the array, after what fits of the first row that is not sent whole. */
  lemma {:induction false} LimitedTailIs(queue: seq<Part>, sent: int, first: bool, limit: int) returns (keep: nat)
    requires forall i :: 0 <= i < |queue| ==> queue[i] != []
    ensures var k, tail := WholeRows(queue, sent, first, limit), LimitedTail(queue, sent, first, limit);
            if k == |queue| then tail == CLOSING && !CutInsideRow(queue, sent, first, limit)
            else
              var c := Candidate(queue[k], first && k == 0);
              && keep < |c| && tail == c[..keep] + CLOSING
              && (CutInsideRow(queue, sent, first, limit) <==> keep > |c| - |queue[k]|)
    decreases |queue|
  {
    keep := 0;
    if queue != [] {
      var c := Candidate(queue[0], first);
      if sent + |c| > limit {
        keep := if limit > sent then limit - sent else 0;
      } else {
        keep := LimitedTailIs(queue[1..], sent + |c|, false, limit);
      }
    }
  }

  lemma LimitedTailIsRead(queue: seq<Part>, maps: seq<RowMap>, sent: int, first: bool, limit: int, n: nat)
    requires AllReadable(queue, maps)
    ensures Delivers(Reading(LimitedTail(queue, sent, first, limit), false, n),
                     Drained([], if CutInsideRow(queue, sent, first, limit) then ParseError else End, n))
  {
    var k := WholeRows(queue, sent, first, limit);
    var keep := LimitedTailIs(queue, sent, first, limit);
    if k == |queue| {
      ClosingIsRead(n);
    } else {
      CutThenClosing(queue[k], maps[k], first && k == 0, keep, n);
    }
  }

  lemma {:induction false} EncodedConcat(a: seq<Json.Row>, b: seq<Json.Row>)
    ensures Encoded(a + b) == Encoded(a) + Encoded(b)
    decreases |a|
  {
    if a == [] {
      assert a + b == b;
    } else {
      assert (a + b)[1..] == a[1..] + b;
      EncodedConcat(a[1..], b);
    }
  }

  lemma {:induction false} EncodedRepeat(rows: seq<Json.Row>, times: int)
    ensures Encoded(Repeat(rows, times)) == Repeat(Encoded(rows), times)
    decreases times
  {
    if times > 0 {
      EncodedRepeat(rows, times - 1);
      EncodedConcat(rows, Repeat(rows, times - 1));
    }
  }

  lemma {:induction false} RepeatNothing<T>(times: int)
    ensures Repeat<T>([], times) == []
    decreases times
  {
    if times > 0 { RepeatNothing<T>(times - 1); }
  }

  lemma {:induction false} MapsConcat(a: seq<Json.Row>, b: seq<Json.Row>)
    ensures Maps(a + b) == Maps(a) + Maps(b)
    decreases |a|
  {
    if a == [] {
      assert a + b == b;
    } else {
      assert (a + b)[1..] == a[1..] + b;
      MapsConcat(a[1..], b);
    }
  }

  /** Two whole passes begin with the rows twice. */
  lemma TwoPasses(rows: seq<Json.Row>, multiplier: int, k: nat)
    requires multiplier >= 2 && 2 * |rows| <= k <= |Maps(Repeat(rows, multiplier))|
    ensures Maps(rows) + Maps(rows) <= Maps(Repeat(rows, multiplier))[..k]
  {
    var later := Repeat(rows, multiplier - 2);
    assert Repeat(rows, multiplier) == rows + (rows + later);
    MapsConcat(rows, rows + later);
    MapsConcat(rows, later);
    assert Maps(Repeat(rows, multiplier)) == Maps(rows) + Maps(rows) + Maps(later);
  }

  lemma NoRowsDeliver()
    ensures Drain(Open(['[', ']'])) == Drained([], End, 0)
  {
    var s: seq<Byte> := ['[', ']'];
    assert s[1..] == [']'] && [']'][1..] == [];
    assert AfterFirst(s, '[') == Some([']']);
  }

  /**
   The multiplied export never makes up a row: for every multiplier and size limit the
   reader gets a prefix of the rows repeated so many times, in order, and then the end of
   the array, or a parse error exactly when the limit falls inside a row.
   */
  lemma MultipliedIsRead(rows: seq<Json.Row>, multiplier: int, limit: int)
    ensures var parts := Repeat(Encoded(rows), multiplier);
            var k := WholeRows(parts, 2, true, limit);
            && |Repeat(rows, multiplier)| == |parts|
            && Drain(Open(Multiplied(Encoded(rows), multiplier, limit)))
               == Drained(Maps(Repeat(rows, multiplier))[..k],
                          if CutInsideRow(parts, 2, true, limit) then ParseError else End, k)
  {
    var parts, maps := Repeat(Encoded(rows), multiplier), Maps(Repeat(rows, multiplier));
    EncodedRepeat(rows, multiplier);
    if rows == [] {
      RepeatNothing<Json.Row>(multiplier);
      RepeatNothing<Part>(multiplier);
      NoRowsDeliver();
    } else {
      EncodedAllReadable(Repeat(rows, multiplier));
      var d := LimitedIsRead(parts, maps, limit);
      OpeningThen(Limited(parts, 2, true, limit), d);
      DeliversAll(Open(OPENING + Limited(parts, 2, true, limit)), d);
    }
  }

  lemma LimitedIsRead(parts: seq<Part>, maps: seq<RowMap>, limit: int) returns (d: Drained)
    requires AllReadable(parts, maps)
    ensures var k := WholeRows(parts, 2, true, limit);
            d == Drained(maps[..k], if CutInsideRow(parts, 2, true, limit) then ParseError else End, k)
    ensures Delivers(Reading(Limited(parts, 2, true, limit), false, 0), d)
  {
    var k, tail := WholeRows(parts, 2, true, limit), LimitedTail(parts, 2, true, limit);
    var last := if CutInsideRow(parts, 2, true, limit) then ParseError else End;
    LimitedTailIsRead(parts, maps, 2, true, limit, k);
    LimitedInTwo(parts, 2, true, limit);
    RowsThenTail(parts, maps, k, true, tail, false, 0, last);
    d := Drained(maps[..k], last, k);
  }

  // ----- an export that is not read to its end ---------------------------------------------------

  /** The number of whole rows in the first bytes of the listing. */
  function WholeRowsIn(parts: seq<Part>, first: bool, size: nat): (n: nat)
    ensures n <= |parts|
    decreases |parts|
  {
    if parts == [] || size < |Candidate(parts[0], first)| then 0
    else 1 + WholeRowsIn(parts[1..], false, size - |Candidate(parts[0], first)|)
  }

  /** The cut falls after the opening brace of a row and before its last byte. */
  function InsideRow(parts: seq<Part>, first: bool, size: nat): bool
    decreases |parts|
  {
    if parts == [] then false
    else if size < |Candidate(parts[0], first)| then size > |Candidate(parts[0], first)| - |parts[0]|
    else InsideRow(parts[1..], false, size - |Candidate(parts[0], first)|)
  }

  /** What follows the whole rows. */
  function CutTail(parts: seq<Part>, first: bool, size: nat): seq<Byte>
    requires size <= |Listing(parts, first)|
    decreases |parts|
  {
    if parts == [] then CLOSING[..size]
    else if size < |Candidate(parts[0], first)| then Candidate(parts[0], first)[..size]
    else CutTail(parts[1..], false, size - |Candidate(parts[0], first)|)
  }

  lemma {:induction false} CutInTwo(parts: seq<Part>, first: bool, size: nat)
    requires size <= |Listing(parts, first)|
    ensures Listing(parts, first)[..size]
            == Joined(parts[..WholeRowsIn(parts, first, size)], first) + CutTail(parts, first, size)
    decreases |parts|
  {
    var k, tail := WholeRowsIn(parts, first, size), CutTail(parts, first, size);
    if k == 0 {
      assert parts[..0] == [] && [] + tail == tail;
      assert parts != [] ==> Listing(parts, first)[..size] == Candidate(parts[0], first)[..size];
    } else {
      var c, later := Candidate(parts[0], first), parts[1..];
      CutInTwo(later, false, size - |c|);
      assert parts[..k][0] == parts[0] && parts[..k][1..] == later[..k - 1];
      CutAfter(c, Listing(later, false), size);
      Join(c, Joined(later[..k - 1], false), tail);
    }
  }

  lemma CutAfter(a: seq<Byte>, b: seq<Byte>, size: nat)
    requires |a| <= size <= |a| + |b|
    ensures (a + b)[..size] == a + b[..size - |a|]
  {
  }

  /** The tail is the start of the first row that is cut, or of the end of the array. */
  lemma {:induction false} CutTailIs(parts: seq<Part>, first: bool, size: nat) returns (keep: nat)
    requires size < |Listing(parts, first)|
    ensures var k, tail := WholeRowsIn(parts, first, size), CutTail(parts, first, size);
            if k == |parts| then keep < |CLOSING| && tail == CLOSING[..keep] && !InsideRow(parts, first, size)
            else
              var c := Candidate(parts[k], first && k == 0);
              keep < |c| && tail == c[..keep] && (InsideRow(parts, first, size) <==> keep > |c| - |parts[k]|)
    decreases |parts|
  {
    keep := size;
    if parts != [] && |Candidate(parts[0], first)| <= size {
      keep := CutTailIs(parts[1..], false, size - |Candidate(parts[0], first)|);
    }
  }

  lemma CutTailIsRead(parts: seq<Part>, maps: seq<RowMap>, first: bool, size: nat, broken: bool, n: nat)
    requires AllReadable(parts, maps) && size < |Listing(parts, first)|
    ensures Delivers(Reading(CutTail(parts, first, size), broken, n),
                     Drained([], if InsideRow(parts, first, size) then ParseError else Stop(broken), n))
  {
    var k := WholeRowsIn(parts, first, size);
    var keep := CutTailIs(parts, first, size);
    if k == |parts| {
      FillerRunsOut(CLOSING[..keep], broken, n);
    } else {
      CutThenNothing(parts[k], maps[k], first && k == 0, keep, broken, n);
    }
  }

  /** The first bytes of the listing. */
  lemma ListingRunsOut(parts: seq<Part>, maps: seq<RowMap>, size: nat, broken: bool) returns (d: Drained)
    requires AllReadable(parts, maps) && size < |Listing(parts, true)|
    ensures var k := WholeRowsIn(parts, true, size);
            d == Drained(maps[..k], if InsideRow(parts, true, size) then ParseError else Stop(broken), k)
    ensures Delivers(Reading(Listing(parts, true)[..size], broken, 0), d)
  {
    var k, tail := WholeRowsIn(parts, true, size), CutTail(parts, true, size);
    var last := if InsideRow(parts, true, size) then ParseError else Stop(broken);
    CutInTwo(parts, true, size);
    CutTailIsRead(parts, maps, true, size, broken, k);
    RowsThenTail(parts, maps, k, true, tail, broken, 0, last);
    d := Drained(maps[..k], last, k);
  }

  /** The whole rows, and then an error in a row, or whatever running out between rows means. */
  function CutShort(rows: seq<Json.Row>, size: nat, broken: bool): Drained {
    var k := WholeRowsIn(Encoded(rows), true, size);
    Drained(Maps(rows)[..k], if InsideRow(Encoded(rows), true, size) then ParseError else Stop(broken), k)
  }

  lemma CutOpeningThen(filler: seq<Byte>, rest: seq<Byte>, broken: bool, d: Drained)
    requires forall i :: 0 <= i < |filler| ==> Filler(filler[i])
    requires Delivers(Reading(rest, broken, 0), d)
    ensures Delivers(Reader(['['] + (filler + rest), broken, false, false, 0), d)
  {
    OpeningIsSkipped(filler, rest, broken);
    assert [] + d.rows == d.rows;
    assert Prepend([], d) == d;
  }

  /**
   The first bytes of a plain export, from a source that breaks or is closed there: the
   whole rows among them, and then an error, unless it is closed between two rows.
   */
  lemma CutExportIsRead(rows: seq<Json.Row>, size: nat, broken: bool)
    requires size < |SinglePass(Encoded(rows))|
    ensures Drain(Reader(SinglePass(Encoded(rows))[..size], broken, false, false, 0))
            == if size == 0 then Drained([], HttpError, 0)
               else CutShort(rows, if size < 2 then 0 else size - 2, broken)
  {
    var listing, whole := Listing(Encoded(rows), true), SinglePass(Encoded(rows));
    if size == 0 {
      NothingToRead(broken);
    } else {
      var listed := if size < 2 then 0 else size - 2;
      EncodedAllReadable(rows);
      var d := ListingRunsOut(Encoded(rows), Maps(rows), listed, broken);
      CutOpening(listing, size);
      var filler: seq<Byte> := if size < 2 then [] else ['\n'];
      CutOpeningThen(filler, listing[..listed], broken, d);
      DeliversAll(Reader(whole[..size], broken, false, false, 0), d);
    }
  }

  lemma NothingToRead(broken: bool)
    ensures Drain(Reader([], broken, false, false, 0)) == Drained([], HttpError, 0)
  {
  }

  lemma CutOpening(listing: seq<Byte>, size: nat)
    requires 0 < size <= |OPENING + listing|
    ensures var listed := if size < 2 then 0 else size - 2;
            (OPENING + listing)[..size] == ['['] + ((if size < 2 then [] else ['\n']) + listing[..listed])
  {
  }

  /** What a source that is closed without notice delivers of the first bytes of the plain export. */
  function Received(rows: seq<Json.Row>, size: nat): Drained {
    if size >= |SinglePass(Encoded(rows))| then Drained(Maps(rows), End, |rows|)
    else if size == 0 then Drained([], HttpError, 0)
    else CutShort(rows, if size < 2 then 0 else size - 2, false)
  }

  lemma ClosedExportIsRead(rows: seq<Json.Row>, size: nat)
    requires size <= |SinglePass(Encoded(rows))|
    ensures Drain(Open(SinglePass(Encoded(rows))[..size])) == Received(rows, size)
  {
    if size < |SinglePass(Encoded(rows))| {
      CutExportIsRead(rows, size, false);
    } else {
      assert SinglePass(Encoded(rows))[..size] == SinglePass(Encoded(rows));
      SinglePassRoundTrip(rows);
    }
  }

  /** A connection that breaks before the last byte of the export is never taken for its end. */
  lemma BreakIsNoticed(rows: seq<Json.Row>, size: nat)
    requires size < |SinglePass(Encoded(rows))|
    ensures var d := Drain(Reader(SinglePass(Encoded(rows))[..size], true, false, false, 0));
            !d.last.End? && d.rows <= Maps(rows)
  {
    CutExportIsRead(rows, size, true);
  }

  /** One that is closed early is taken for the end exactly if the array was open and no row was. */
  lemma EarlyCloseIsNoticedExactly(rows: seq<Json.Row>, size: nat)
    requires size < |SinglePass(Encoded(rows))|
    ensures var d := Drain(Reader(SinglePass(Encoded(rows))[..size], false, false, false, 0));
            && d.rows <= Maps(rows)
            && (d.last.End? <==> size > 0 && (size < 2 || !InsideRow(Encoded(rows), true, size - 2)))
  {
    CutExportIsRead(rows, size, false);
    assert !InsideRow(Encoded(rows), true, 0);
  }

  // ----- from the bank to the adapter ------------------------------------------------------------

  /** The plain export, sent in any chunks, read by the adapter. */
  method ExportAndRead(rows: seq<Json.Row>, chunks: seq<seq<Byte>>) returns (read: seq<RowMap>, last: Item)
    requires Flatten(chunks) == SinglePass(Encoded(rows))
    ensures read == Maps(rows) && last == End
  {
    var reader := new ChunkedReader(chunks, false);
    SinglePassRoundTrip(rows);
    read, last := reader.ReadAll();
  }
}
