/**
 The bank's export streams.
 */
module BankExport {
  import opened Collections
  import opened Bytes
  import opened Json

  type Part = seq<Byte>

  const OPENING: seq<Byte> := ['[', '\n']
  const CLOSING: seq<Byte> := ['\n', ']']
  const SEPARATOR: seq<Byte> := [',', '\n']

  /** The encoded rows, in order. */
  function Encoded(rows: seq<Json.Row>): (parts: seq<Part>)
    ensures |parts| == |rows|
    decreases |rows|
  {
    if rows == [] then [] else [EncodeRow(rows[0])] + Encoded(rows[1..])
  }

  /** A row with the separator that goes before it. */
  function Candidate(part: Part, first: bool): seq<Byte> {
    (if first then [] else SEPARATOR) + part
  }

  /** The rows from here on, and the end of the array. */
  function Listing(parts: seq<Part>, first: bool): seq<Byte>
    decreases |parts|
  {
    if parts == [] then CLOSING else Candidate(parts[0], first) + Listing(parts[1..], false)
  }

  function SinglePass(parts: seq<Part>): seq<Byte> {
    OPENING + Listing(parts, true)
  }

  // ----- the single pass -----------------------------------------------------------------

  /** One more chunk goes out. */
  method Send(chunks: seq<seq<Byte>>, chunk: seq<Byte>) returns (sent: seq<seq<Byte>>)
    ensures sent == chunks + [chunk] && Flatten(sent) == Flatten(chunks) + chunk
  {
    FlattenAppend(chunks, chunk);
    sent := chunks + [chunk];
  }

  lemma {:induction false} EncodedAt(rows: seq<Json.Row>, i: nat)
    requires i < |rows|
    ensures Encoded(rows)[i] == EncodeRow(rows[i])
    decreases |rows|
  {
    if i > 0 { EncodedAt(rows[1..], i - 1); }
  }

  /** Encode one row when its turn comes. */
  method Encode(rows: seq<Json.Row>, i: nat, ghost parts: seq<Part>) returns (part: Part)
    requires i < |rows| && parts == Encoded(rows)
    ensures part == parts[i]
  {
    EncodedAt(rows, i);
    part := EncodeRow(rows[i]);
  }

  lemma ListingStep(parts: seq<Part>, i: nat, first: bool)
    requires i < |parts|
    ensures Listing(parts[i..], first)
            == (if first then [] else SEPARATOR) + (parts[i] + Listing(parts[i + 1..], false))
  {
    assert parts[i..][0] == parts[i] && parts[i..][1..] == parts[i + 1..];
    Join(if first then [] else SEPARATOR, parts[i], Listing(parts[i + 1..], false));
  }

  /** The generator of the plain export. */
  method SinglePassJson(rows: seq<Json.Row>, ghost parts: seq<Part>) returns (chunks: seq<seq<Byte>>)
    requires parts == Encoded(rows)
    ensures Flatten(chunks) == SinglePass(parts)
  {
    chunks := Send([], OPENING);
    var first := true;
    assert parts[0..] == parts && [] + OPENING == OPENING;
    for i := 0 to |rows|
      invariant SinglePass(parts) == Flatten(chunks) + Listing(parts[i..], first)
    {
      ListingStep(parts, i, first);
      var part := Encode(rows, i, parts);
      chunks := SendRow(chunks, part, first, Listing(parts[i + 1..], false));
      first := false;
    }
    chunks := Send(chunks, CLOSING);
  }

  /** A separator, unless it is the first row, and the row. */
  method SendRow(start: seq<seq<Byte>>, part: Part, first: bool, ghost rest: seq<Byte>) returns (chunks: seq<seq<Byte>>)
    ensures Flatten(chunks) + rest == Flatten(start) + ((if first then [] else SEPARATOR) + (part + rest))
  {
    chunks := start;
    if first {
      assert [] + (part + rest) == part + rest;
    } else {
      Join(Flatten(start), SEPARATOR, part + rest);
      chunks := Send(chunks, SEPARATOR);
    }
    Join(Flatten(chunks), part, rest);
    chunks := Send(chunks, part);
  }

  // ----- the multiplied, size-limited export -------------------------------------------------

  function Repeat<T>(items: seq<T>, times: int): seq<T>
    decreases times
  {
    if times <= 0 then [] else items + Repeat(items, times - 1)
  }

  /** The queue of rows still to send, cut where the size limit falls. */
  function Limited(queue: seq<Part>, sent: int, first: bool, limit: int): seq<Byte>
    decreases |queue|
  {
    if queue == [] then CLOSING
    else
      var c := Candidate(queue[0], first);
      if sent + |c| > limit then (if limit > sent then c[..limit - sent] else []) + CLOSING
      else c + Limited(queue[1..], sent + |c|, false, limit)
  }

  function Multiplied(parts: seq<Part>, multiplier: int, limit: int): seq<Byte> {
    if parts == [] then ['[', ']'] else OPENING + Limited(Repeat(parts, multiplier), 2, true, limit)
  }

  /** How many rows are sent whole. */
  function WholeRows(queue: seq<Part>, sent: int, first: bool, limit: int): (n: nat)
    ensures n <= |queue|
    decreases |queue|
  {
    if queue == [] then 0
    else
      var c := Candidate(queue[0], first);
      if sent + |c| > limit then 0 else 1 + WholeRows(queue[1..], sent + |c|, false, limit)
  }

  /** The limit falls inside a row: after its opening brace and before its last byte. */
  function CutInsideRow(queue: seq<Part>, sent: int, first: bool, limit: int): bool
    decreases |queue|
  {
    if queue == [] then false
    else
      var c := Candidate(queue[0], first);
      if sent + |c| > limit then limit - sent > |c| - |queue[0]|
      else CutInsideRow(queue[1..], sent + |c|, false, limit)
  }

  lemma LimitReached(queue: seq<Part>, sent: int, first: bool, limit: int)
    requires sent >= limit && (queue != [] ==> queue[0] != [])
    ensures Limited(queue, sent, first, limit) == CLOSING
  {
    assert [] + CLOSING == CLOSING;
  }

  lemma LimitedFits(out: seq<Byte>, queue: seq<Part>, sent: int, first: bool, limit: int)
    requires queue != [] && sent + |Candidate(queue[0], first)| <= limit
    ensures var c := Candidate(queue[0], first);
            out + Limited(queue, sent, first, limit) == out + c + Limited(queue[1..], sent + |c|, false, limit)
  {
    var c := Candidate(queue[0], first);
    Join(out, c, Limited(queue[1..], sent + |c|, false, limit));
  }

  lemma LimitedIsFull(queue: seq<Part>, sent: int, first: bool, limit: int)
    requires queue != [] && sent + |Candidate(queue[0], first)| > limit
    ensures var c := Candidate(queue[0], first);
            Limited(queue, sent, first, limit) == (if limit - sent > 0 then c[..limit - sent] else []) + CLOSING
  {
  }

  /** What still fits of a candidate, and the end of the array. */
  method SendCut(start: seq<seq<Byte>>, candidate: seq<Byte>, remaining: int) returns (chunks: seq<seq<Byte>>)
    requires remaining < |candidate|
    ensures Flatten(chunks) == Flatten(start) + ((if remaining > 0 then candidate[..remaining] else []) + CLOSING)
  {
    chunks := start;
    if remaining > 0 {
      Join(Flatten(start), candidate[..remaining], CLOSING);
      chunks := Send(chunks, candidate[..remaining]);
    } else {
      assert [] + CLOSING == CLOSING;
    }
    chunks := Send(chunks, CLOSING);
  }

  /** The next row of the queue, or what still fits of it. */
  method SendNext(start: seq<seq<Byte>>, part: Part, sent: int, first: bool, limit: int,
                  ghost queue: seq<Part>, ghost rest: seq<Part>)
    returns (chunks: seq<seq<Byte>>, full: bool)
    requires queue != [] && queue[0] == part && queue[1..] == rest
    ensures full <==> sent + |Candidate(part, first)| > limit
    ensures full ==> Flatten(chunks) == Flatten(start) + Limited(queue, sent, first, limit)
    ensures !full ==> Flatten(start) + Limited(queue, sent, first, limit)
                      == Flatten(chunks) + Limited(rest, sent + |Candidate(part, first)|, false, limit)
  {
    var candidate := Candidate(part, first);
    full := sent + |candidate| > limit;
    if full {
      LimitedIsFull(queue, sent, first, limit);
      chunks := SendCut(start, candidate, limit - sent);
    } else {
      LimitedFits(Flatten(start), queue, sent, first, limit);
      chunks := Send(start, candidate);
    }
  }

  lemma FirstOfQueue(parts: seq<Part>, i: nat, later: seq<Part>)
    requires i < |parts|
    ensures var queue := parts[i..] + later;
            queue != [] && queue[0] == parts[i] && queue[1..] == parts[i + 1..] + later
  {
  }

  /** One pass over the rows, as far as the limit allows. */
  method SendPass(rows: seq<Json.Row>, ghost parts: seq<Part>, ghost later: seq<Part>,
                  start: seq<seq<Byte>>, startSent: int, startFirst: bool, limit: int)
    returns (chunks: seq<seq<Byte>>, sent: int, first: bool, full: bool)
    requires parts == Encoded(rows)
    ensures full ==> Flatten(chunks) == Flatten(start) + Limited(parts + later, startSent, startFirst, limit)
    ensures !full ==> Flatten(start) + Limited(parts + later, startSent, startFirst, limit)
                      == Flatten(chunks) + Limited(later, sent, first, limit)
  {
    ghost var goal := Flatten(start) + Limited(parts + later, startSent, startFirst, limit);
    chunks, sent, first, full := start, startSent, startFirst, false;
    assert parts[0..] == parts;
    for i := 0 to |rows|
      invariant !full && goal == Flatten(chunks) + Limited(parts[i..] + later, sent, first, limit)
    {
      FirstOfQueue(parts, i, later);
      var part := Encode(rows, i, parts);
      chunks, full := SendNext(chunks, part, sent, first, limit, parts[i..] + later, parts[i + 1..] + later);
      if full { return; }
      sent := sent + |Candidate(part, first)|;
      first := false;
    }
    assert parts[|rows|..] + later == later;
  }

  /** The generator of the multiplied export. */
  method MultipliedJson(rows: seq<Json.Row>, ghost parts: seq<Part>, multiplier: int, limit: int)
    returns (chunks: seq<seq<Byte>>)
    requires parts == Encoded(rows)
    ensures Flatten(chunks) == Multiplied(parts, multiplier, limit)
  {
    if rows == [] {
      chunks := Send([], ['[', ']']);
      return;
    }
    chunks := Send([], OPENING);
    var sent, first, passes := 2, true, 0;
    while passes < multiplier && sent < limit
      invariant 0 <= passes && (passes <= multiplier || passes == 0)
      invariant Multiplied(parts, multiplier, limit)
                == Flatten(chunks) + Limited(Repeat(parts, multiplier - passes), sent, first, limit)
    {
      var full: bool;
      chunks, sent, first, full := SendPass(rows, parts, Repeat(parts, multiplier - passes - 1), chunks, sent, first,
                                            limit);
      if full { return; }
      passes := passes + 1;
    }
    if sent >= limit { LimitReached(Repeat(parts, multiplier - passes), sent, first, limit); }
    chunks := Send(chunks, CLOSING);
  }

  lemma {:induction false} LimitedSize(queue: seq<Part>, sent: int, first: bool, limit: int)
    ensures sent + |Limited(queue, sent, first, limit)| <= (if limit > sent then limit else sent) + 2
    decreases |queue|
  {
    if queue != [] {
      var c := Candidate(queue[0], first);
      if sent + |c| <= limit { LimitedSize(queue[1..], sent + |c|, false, limit); }
    }
  }

  /** The size limit is kept, up to the two bytes that close the array. */
  lemma MultipliedSize(parts: seq<Part>, multiplier: int, limit: int)
    ensures |Multiplied(parts, multiplier, limit)| <= (if limit > 2 then limit else 2) + 2
  {
    LimitedSize(Repeat(parts, multiplier), 2, true, limit);
  }
}
