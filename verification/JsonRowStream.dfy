/**
 The incremental reader of a JSON array of objects: a pure reader over one byte sequence,
 and the reader of the adapter, which sees the bytes in chunks.
 */
module JsonRowStream {
  import opened Options
  import opened Bytes
  import opened Json
  import opened Framing

  type RowMap = map<Text, Text>

  datatype Item = Row(row: RowMap) | End | HttpError | ParseError

  /** A reader over the bytes not yet read; a broken source fails where they run out. */
  datatype Reader = Reader(rest: seq<Byte>, broken: bool, started: bool, finished: bool, rowNumber: nat)

  datatype Step = Step(reader: Reader, item: Item)

  /** White space between array elements, with the form feed, and commas. */
  predicate Filler(b: Byte) {
    Space(b) || Code(b) == 12 || b == ','
  }

  function SkipFiller(s: seq<Byte>): (r: seq<Byte>)
    ensures |r| <= |s| && (r != [] ==> !Filler(r[0]))
    decreases |s|
  {
    if s != [] && Filler(s[0]) then SkipFiller(s[1..]) else s
  }

  /** What follows the first occurrence of the byte. */
  function AfterFirst(s: seq<Byte>, b: Byte): (r: Option<seq<Byte>>)
    ensures r.Some? ==> |r.value| < |s|
    decreases |s|
  {
    if s == [] then None else if s[0] == b then Some(s[1..]) else AfterFirst(s[1..], b)
  }

  /** The next element, the array being open. */
  function NextElement(r: Reader): Step {
    var s := SkipFiller(r.rest);
    if s == [] then
      if r.broken then Step(r.(rest := []), HttpError) else Step(r.(rest := [], finished := true), End)
    else if s[0] == ']' then Step(r.(rest := s[1..], finished := true), End)
    else if s[0] == '{' then
      var n := Frame(OUTSIDE, s);
      if n.None? then Step(r.(rest := []), ParseError)
      else
        var parsed := ParseRow(s[..n.value]);
        if parsed.None? then Step(r.(rest := s[n.value..]), ParseError)
        else Step(r.(rest := s[n.value..], rowNumber := r.rowNumber + 1), Row(parsed.value))
    else Step(r.(rest := s), ParseError)
  }

  function ReadNext(r: Reader): Step {
    if r.finished then Step(r, End)
    else if r.started then NextElement(r)
    else
      var open := AfterFirst(r.rest, '[');
      if open.None? then Step(r.(rest := []), HttpError)
      else NextElement(r.(rest := open.value, started := true))
  }

  /** All rows up to the first item that is none, that item, and how many rows were counted. */
  datatype Drained = Drained(rows: seq<RowMap>, last: Item, rowNumber: nat)

  function Prepend(rows: seq<RowMap>, d: Drained): Drained {
    d.(rows := rows + d.rows)
  }

  function Drain(r: Reader): Drained
    decreases |r.rest|
  {
    var step := ReadNext(r);
    if step.item.Row? && |step.reader.rest| < |r.rest| then
      var more := Drain(step.reader);
      Prepend([step.item.row], more)
    else Drained([], step.item, step.reader.rowNumber)
  }

  ghost predicate DrainsTo(r: Reader, d: Drained) {
    Drain(r) == d
  }

  /** Whatever the reader drains to is this. */
  ghost predicate Delivers(r: Reader, d: Drained) {
    forall e :: DrainsTo(r, e) ==> e == d
  }

  lemma DeliversAll(r: Reader, d: Drained)
    ensures Delivers(r, d) <==> Drain(r) == d
  {
    assert DrainsTo(r, Drain(r));
  }

  lemma RowConsumes(r: Reader)
    ensures ReadNext(r).item.Row? ==> |ReadNext(r).reader.rest| < |r.rest|
  {
  }

  function Open(bytes: seq<Byte>): Reader {
    Reader(bytes, false, false, false, 0)
  }

  /** Of everything a stream delivers the rows are read, and the reader is where they end. */
  ghost predicate Ahead(d: Drained, rows: seq<RowMap>, r: Reader) {
    forall rest :: DrainsTo(r, rest) ==> d == Prepend(rows, rest)
  }

  lemma AllAhead(r: Reader)
    ensures Ahead(Drain(r), [], r)
  {
  }

  lemma AfterRow(d: Drained, rows: seq<RowMap>, r: Reader)
    requires Ahead(d, rows, r) && ReadNext(r).item.Row?
    ensures Ahead(d, rows + [ReadNext(r).item.row], ReadNext(r).reader)
    ensures |ReadNext(r).reader.rest| < |r.rest| && ReadNext(r).reader.rowNumber == r.rowNumber + 1
  {
    RowConsumes(r);
    var next := ReadNext(r).reader;
    assert DrainsTo(r, Drain(r));
    PrependTwice(rows, [ReadNext(r).item.row], Drain(next));
    assert next.rowNumber == r.rowNumber + 1;
  }

  lemma PrependTwice(a: seq<RowMap>, b: seq<RowMap>, d: Drained)
    ensures Prepend(a, Prepend(b, d)) == Prepend(a + b, d)
  {
  }

  lemma RowsReadArePrefix(d: Drained, rows: seq<RowMap>, r: Reader)
    requires Ahead(d, rows, r)
    ensures rows <= d.rows
  {
    assert DrainsTo(r, Drain(r));
  }

  lemma AfterLast(d: Drained, rows: seq<RowMap>, r: Reader)
    requires Ahead(d, rows, r) && !ReadNext(r).item.Row?
    ensures d == Drained(rows, ReadNext(r).item, ReadNext(r).reader.rowNumber)
  {
    assert DrainsTo(r, Drain(r));
    assert rows + [] == rows;
  }

  // ----- the reader of the adapter -------------------------------------------------------

  lemma SkipFillerAll(a: seq<Byte>, b: seq<Byte>)
    requires forall i :: 0 <= i < |a| ==> Filler(a[i])
    ensures SkipFiller(a + b) == SkipFiller(b)
    decreases |a|
  {
    if a == [] {
      assert a + b == b;
    } else {
      assert (a + b)[1..] == a[1..] + b;
      SkipFillerAll(a[1..], b);
    }
  }

  lemma AfterFirstSkips(a: seq<Byte>, b: seq<Byte>, x: Byte)
    requires forall i :: 0 <= i < |a| ==> a[i] != x
    ensures AfterFirst(a + b, x) == AfterFirst(b, x)
    decreases |a|
  {
    if a == [] {
      assert a + b == b;
    } else {
      assert (a + b)[1..] == a[1..] + b;
      AfterFirstSkips(a[1..], b, x);
    }
  }

  function Shift(offset: nat, n: Option<nat>): Option<nat> {
    if n.None? then None else Some(offset + n.value)
  }

  lemma FrameProgress(all: seq<Byte>, k: nat, st: Scan)
    requires k < |all|
    ensures all[..k] + [all[k]] == all[..k + 1] && all[k..][1..] == all[k + 1..] && all[k..][0] == all[k]
    ensures Frame(st, all[k..])
            == if Closes(st, all[k]) then Some(1) else Shift(1, Frame(Feed(st, all[k]), all[k + 1..]))
  {
  }

  class ChunkedReader {
    /** Chunks that have not arrived, and what is left of the one that has. */
    var pending: seq<seq<Byte>>
    var window: seq<Byte>
    const broken: bool

    var buffer: seq<Byte>
    var started: bool
    var finished: bool
    var rowNumber: nat

    constructor (chunks: seq<seq<Byte>>, broken: bool)
      ensures View() == Reader(Flatten(chunks), broken, false, false, 0)
    {
      pending, window, this.broken := chunks, [], broken;
      buffer, started, finished, rowNumber := [], false, false, 0;
    }

    function Rest(): seq<Byte>
      reads this
    {
      window + Flatten(pending)
    }

    function View(): Reader
      reads this
    {
      Reader(Rest(), broken, started, finished, rowNumber)
    }

    /** Make some unread bytes visible, unless the source is exhausted; fails if it broke. */
    method FillBuf() returns (ok: bool)
      modifies this`pending, this`window
      ensures Rest() == old(Rest())
      ensures window == [] ==> Rest() == []
      ensures ok <==> !(broken && Rest() == [])
    {
      while window == [] && pending != []
        invariant Rest() == old(Rest())
        decreases |pending|
      {
        window, pending := pending[0], pending[1..];
      }
      assert window == [] ==> Rest() == [];
      ok := !(broken && window == []);
    }

    method Consume(n: nat)
      requires n <= |window|
      modifies this`window
      ensures window == old(window)[n..] && Rest() == old(Rest())[n..]
    {
      window := window[n..];
    }

    method SkipUntil(target: Byte) returns (ok: bool)
      modifies this`pending, this`window
      ensures ok <==> AfterFirst(old(Rest()), target).Some?
      ensures Rest() == if ok then AfterFirst(old(Rest()), target).value else []
    {
      while true
        invariant AfterFirst(Rest(), target) == AfterFirst(old(Rest()), target)
        decreases |Rest()|
      {
        ok := FillBuf();
        if !ok || window == [] { return false; }
        var index := 0;
        while index < |window| && window[index] != target
          invariant index <= |window|
          invariant forall i :: 0 <= i < index ==> window[i] != target
        {
          index := index + 1;
        }
        ghost var rest := Rest();
        assert rest == window[..index] + rest[index..];
        AfterFirstSkips(window[..index], rest[index..], target);
        if index < |window| {
          Consume(index + 1);
          return true;
        }
        Consume(index);
      }
    }

    method SkipWhitespaceAndCommas() returns (ok: bool)
      modifies this`pending, this`window
      ensures Rest() == SkipFiller(old(Rest()))
      ensures ok <==> !(broken && Rest() == [])
    {
      while true
        invariant SkipFiller(Rest()) == SkipFiller(old(Rest()))
        decreases |Rest()|
      {
        ok := FillBuf();
        if !ok || window == [] { return; }
        var count := 0;
        while count < |window| && Filler(window[count])
          invariant count <= |window|
          invariant forall i :: 0 <= i < count ==> Filler(window[i])
        {
          count := count + 1;
        }
        if count == 0 { return; }
        ghost var rest := Rest();
        assert rest == window[..count] + rest[count..];
        SkipFillerAll(window[..count], rest[count..]);
        Consume(count);
      }
    }

    /** The next byte, left unread; fails if a broken source has run out. */
    method PeekByte() returns (ok: bool, next: Option<Byte>)
      modifies this`pending, this`window
      ensures Rest() == old(Rest())
      ensures ok <==> !(broken && Rest() == [])
      ensures next == if Rest() == [] then None else Some(Rest()[0])
    {
      ok := FillBuf();
      next := if window == [] then None else Some(window[0]);
    }

    method ReadByte() returns (b: Option<Byte>)
      modifies this`pending, this`window
      ensures old(Rest()) == [] ==> b == None && Rest() == []
      ensures old(Rest()) != [] ==> b == Some(old(Rest())[0]) && Rest() == old(Rest())[1..]
    {
      var ok := FillBuf();
      if window == [] { return None; }
      b := Some(window[0]);
      Consume(1);
    }

    /** The bytes of one object; None when the source ends or breaks before it is closed. */
    method ReadJsonObject() returns (text: Option<seq<Byte>>)
      modifies this`pending, this`window, this`buffer
      ensures text.None? <==> Frame(OUTSIDE, old(Rest())).None?
      ensures text.Some? ==>
                var n := Frame(OUTSIDE, old(Rest())).value;
                text.value == old(Rest())[..n] && Rest() == old(Rest())[n..]
      ensures text.None? ==> Rest() == []
    {
      ghost var all, k := Rest(), 0;
      buffer := [];
      var st := OUTSIDE;
      while true
        invariant k <= |all| && buffer == all[..k] && Rest() == all[k..]
        invariant Frame(OUTSIDE, all) == Shift(k, Frame(st, all[k..]))
        decreases |all| - k
      {
        var b := ReadByte();
        if b.None? { return None; }
        FrameProgress(all, k, st);
        buffer := buffer + [b.value];
        k := k + 1;
        if Closes(st, b.value) { return Some(buffer); }
        st := Feed(st, b.value);
      }
    }

    /**
     The adapter's reader refines the pure one: what it returns, and how it goes on, are
     functions of the unread bytes, however they are split into chunks.
     */
    method NextRow() returns (item: Item)
      modifies this
      ensures View() == ReadNext(old(View())).reader
      ensures item == ReadNext(old(View())).item
    {
      if finished { return End; }
      if !started {
        var found := SkipUntil('[');
        if !found { return HttpError; }
        started := true;
      }
      item := NextOpenElement();
    }

    method NextOpenElement() returns (item: Item)
      requires started && !finished
      modifies this
      ensures View() == NextElement(old(View())).reader
      ensures item == NextElement(old(View())).item
    {
      var ok := SkipWhitespaceAndCommas();
      if !ok { return HttpError; }
      var next;
      ok, next := PeekByte();
      if !ok { return HttpError; }
      if next.None? {
        finished := true;
        return End;
      }
      if next.value == ']' {
        var bracket := ReadByte();
        finished := true;
        return End;
      }
      if next.value != '{' { return ParseError; }
      var text := ReadJsonObject();
      if text.None? { return ParseError; }
      var parsed := ParseRow(text.value);
      if parsed.None? { return ParseError; }
      rowNumber := rowNumber + 1;
      item := Row(parsed.value);
    }

    /** The next row of everything the stream delivers. */
    method NextAfter(ghost d: Drained, ghost rows: seq<RowMap>) returns (item: Item)
      requires Ahead(d, rows, View())
      modifies this
      ensures item.Row? ==> Ahead(d, rows + [item.row], View()) && rows + [item.row] <= d.rows
      ensures item.Row? ==> |Rest()| < |old(Rest())| && rowNumber == old(rowNumber) + 1
      ensures !item.Row? ==> d.rows == rows && d.last == item && d.rowNumber == rowNumber
    {
      ghost var before := View();
      item := NextRow();
      if item.Row? {
        AfterRow(d, rows, before);
        RowsReadArePrefix(d, rows + [item.row], View());
      } else {
        AfterLast(d, rows, before);
      }
    }

    /** Read rows until there is none. */
    method ReadAll() returns (rows: seq<RowMap>, last: Item)
      modifies this
      ensures Drained(rows, last, rowNumber) == Drain(old(View()))
    {
      ghost var d := Drain(View());
      AllAhead(View());
      rows := [];
      while true
        invariant Ahead(d, rows, View())
        decreases |Rest()|
      {
        last := NextAfter(d, rows);
        if !last.Row? { return; }
        rows := rows + [last.row];
      }
    }
  }
}
