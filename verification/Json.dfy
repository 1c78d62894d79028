/**
 The bank's row encoder and the object parser of the adapter (RFC 8259), for objects
 whose values are strings, null or booleans.
 */
module Json {
  import opened Collections
  import opened Options
  import opened Bytes

  datatype Field = Field(name: Text, value: Text)

  /** A row of the export, in column order. */
  type Row = seq<Field>

  // ----- encoder ---------------------------------------------------------------------

  function HexDigit(n: nat): Byte
    requires n < 16
  {
    if n < 10 then (48 + n) as char else (87 + n) as char
  }

  /** Escaping with non-ASCII characters left alone. */
  function EscapeByte(b: Byte): seq<Byte> {
    if b == '\"' then "\\\""
    else if b == '\\' then "\\\\"
    else if b == '\n' then "\\n"
    else if b == '\r' then "\\r"
    else if b == '\t' then "\\t"
    else if Code(b) == 8 then "\\b"
    else if Code(b) == 12 then "\\f"
    else if Code(b) < 32 then ['\\', 'u', '0', '0', HexDigit(Code(b) / 16), HexDigit(Code(b) % 16)]
    else [b]
  }

  function Escape(t: seq<Byte>): seq<Byte>
    decreases |t|
  {
    if t == [] then [] else EscapeByte(t[0]) + Escape(t[1..])
  }

  function Quote(t: seq<Byte>): seq<Byte> {
    ['\"'] + Escape(t) + ['\"']
  }

  function EncodeField(f: Field): seq<Byte> {
    Quote(f.name) + [':'] + Quote(f.value)
  }

  /** The members and the closing brace. */
  function EncodeMembers(row: Row): seq<Byte>
    decreases |row|, 1
  {
    if row == [] then ['}']
    else EncodeField(row[0]) + MembersTail(row)
  }

  function MembersTail(row: Row): seq<Byte>
    requires row != []
    decreases |row|, 0
  {
    if |row| == 1 then ['}'] else [','] + EncodeMembers(row[1..])
  }

  function EncodeRow(row: Row): seq<Byte> {
    ['{'] + EncodeMembers(row)
  }

  // ----- parser ------------------------------------------------------------------------

  /** What a scan found and what it left unread. */
  datatype Scanned<+T> = Scanned(item: T, rest: seq<Byte>)

  predicate Space(b: Byte) {
    b == ' ' || b == '\n' || b == '\r' || b == '\t'
  }

  function SkipSpace(s: seq<Byte>): (r: seq<Byte>)
    ensures |r| <= |s|
    decreases |s|
  {
    if s != [] && Space(s[0]) then SkipSpace(s[1..]) else s
  }

  function HexValue(b: Byte): Option<nat> {
    if Digit(b) then Some(Code(b) - 48)
    else if 'a' <= b <= 'f' then Some(Code(b) - 87)
    else if 'A' <= b <= 'F' then Some(Code(b) - 55)
    else None
  }

  function Hex4(s: seq<Byte>): (r: Option<nat>)
    ensures r.Some? ==> |s| >= 4 && r.value < 0x1_0000
  {
    if |s| < 4 || HexValue(s[0]).None? || HexValue(s[1]).None? || HexValue(s[2]).None? || HexValue(s[3]).None? then None
    else
      Some(0x1000 * HexValue(s[0]).value + 0x100 * HexValue(s[1]).value
           + 0x10 * HexValue(s[2]).value + HexValue(s[3]).value)
  }

  /** The escape after a backslash and the letter u; surrogates must come in pairs. */
  function UnicodeEscape(s: seq<Byte>): (r: Option<Scanned<seq<Byte>>>)
    ensures r.Some? ==> |r.value.rest| < |s|
  {
    var unit := Hex4(s);
    if unit.None? then None
    else if 0xD800 <= unit.value < 0xDC00 then
      if |s| < 6 || s[4] != '\\' || s[5] != 'u' then None
      else
        var low := Hex4(s[6..]);
        if low.None? || low.value < 0xDC00 || 0xE000 <= low.value then None
        else Some(Scanned(Utf8(0x1_0000 + 0x400 * (unit.value - 0xD800) + (low.value - 0xDC00)), s[10..]))
    else if 0xDC00 <= unit.value < 0xE000 then None
    else Some(Scanned(Utf8(unit.value), s[4..]))
  }

  /** The escape after a backslash. */
  function Unescape(s: seq<Byte>): (r: Option<Scanned<seq<Byte>>>)
    ensures r.Some? ==> |r.value.rest| < |s|
  {
    if s == [] then None
    else if s[0] == '\"' || s[0] == '\\' || s[0] == '/' then Some(Scanned([s[0]], s[1..]))
    else if s[0] == 'n' then Some(Scanned(['\n'], s[1..]))
    else if s[0] == 'r' then Some(Scanned(['\r'], s[1..]))
    else if s[0] == 't' then Some(Scanned(['\t'], s[1..]))
    else if s[0] == 'b' then Some(Scanned([8 as char], s[1..]))
    else if s[0] == 'f' then Some(Scanned([12 as char], s[1..]))
    else if s[0] == 'u' then UnicodeEscape(s[1..])
    else None
  }

  /** The body of a string up to and including its closing quote. */
  function StringBody(s: seq<Byte>): (r: Option<Scanned<seq<Byte>>>)
    ensures r.Some? ==> |r.value.rest| < |s|
    decreases |s|
  {
    if s == [] || Code(s[0]) < 32 then None
    else if s[0] == '\"' then Some(Scanned([], s[1..]))
    else
      var head := if s[0] == '\\' then Unescape(s[1..]) else Some(Scanned([s[0]], s[1..]));
      if head.None? then None
      else
        var tail := StringBody(head.value.rest);
        if tail.None? then None else Some(Scanned(head.value.item + tail.value.item, tail.value.rest))
  }

  function ParseString(s: seq<Byte>): (r: Option<Scanned<Text>>)
    ensures r.Some? ==> |r.value.rest| < |s|
  {
    if s == [] || s[0] != '\"' then None
    else
      var body := StringBody(s[1..]);
      if body.None? || !ValidUtf8(body.value.item) then None
      else Some(Scanned(body.value.item, body.value.rest))
  }

  /** A value as the text the adapter keeps: null is empty, booleans are spelled out. */
  function ParseValue(s: seq<Byte>): (r: Option<Scanned<Text>>)
    ensures r.Some? ==> |r.value.rest| < |s|
  {
    if "null" <= s then Some(Scanned([], s[4..]))
    else if "true" <= s then Some(Scanned("true", s[4..]))
    else if "false" <= s then Some(Scanned("false", s[5..]))
    else ParseString(s)
  }

  function ParseField(s: seq<Byte>): (r: Option<Scanned<Field>>)
    ensures r.Some? ==> |r.value.rest| < |s|
  {
    var name := ParseString(s);
    if name.None? then None
    else
      var colon := SkipSpace(name.value.rest);
      if colon == [] || colon[0] != ':' then None
      else
        var value := ParseValue(SkipSpace(colon[1..]));
        if value.None? then None
        else Some(Scanned(Field(name.value.item, value.value.item), value.value.rest))
  }

  /** One or more members and the closing brace. */
  function ParseMembers(s: seq<Byte>): (r: Option<Scanned<Row>>)
    decreases |s|
  {
    var first := ParseField(SkipSpace(s));
    if first.None? then None
    else
      var next := SkipSpace(first.value.rest);
      if next == [] then None
      else if next[0] == '}' then Some(Scanned([first.value.item], next[1..]))
      else if next[0] == ',' then
        var others := ParseMembers(next[1..]);
        if others.None? then None
        else Some(Scanned([first.value.item] + others.value.item, others.value.rest))
      else None
  }

  function ParseFields(s: seq<Byte>): Option<Row> {
    var open := SkipSpace(s);
    if open == [] || open[0] != '{' then None
    else
      var inside := SkipSpace(open[1..]);
      var body := if inside != [] && inside[0] == '}' then Some(Scanned([], inside[1..])) else ParseMembers(inside);
      if body.None? || SkipSpace(body.value.rest) != [] then None else Some(body.value.item)
  }

  /** The row as a map; of two members with the same name the later one wins. */
  function ToMap(row: Row): map<Text, Text>
    decreases |row|
  {
    if row == [] then map[] else map[row[0].name := row[0].value] + ToMap(row[1..])
  }

  function ParseRow(s: seq<Byte>): Option<map<Text, Text>> {
    var fields := ParseFields(s);
    if fields.None? then None else Some(ToMap(fields.value))
  }

  // ----- round trip ------------------------------------------------------------------------

  lemma EscapedByteRead(b: Byte, more: seq<Byte>)
    ensures var s := EscapeByte(b) + more;
            s[0] != '\"' && Code(s[0]) >= 32
            && (if s[0] == '\\' then Unescape(s[1..]) == Some(Scanned([b], more))
                else s[0] == b && s[1..] == more)
  {
    var s := EscapeByte(b) + more;
    if Code(b) < 32 && |EscapeByte(b)| == 6 {
      var h, l := HexDigit(Code(b) / 16), HexDigit(Code(b) % 16);
      assert s[2..] == ['0', '0', h, l] + more;
      assert HexValue(h) == Some(Code(b) / 16) && HexValue(l) == Some(Code(b) % 16);
      assert Hex4(s[2..]) == Some(Code(b));
      assert s[1..][1..] == s[2..] && s[2..][4..] == more;
      assert Utf8(Code(b)) == [b];
    } else if |EscapeByte(b)| == 2 {
      assert s[1..] == [EscapeByte(b)[1]] + more;
    } else {
      assert EscapeByte(b) == [b];
    }
  }

  lemma StringBodyStep(s: seq<Byte>, b: Byte, rest: seq<Byte>, t: seq<Byte>, more: seq<Byte>)
    requires s != [] && s[0] != '\"' && Code(s[0]) >= 32
    requires if s[0] == '\\' then Unescape(s[1..]) == Some(Scanned([b], rest)) else s[0] == b && s[1..] == rest
    requires StringBody(rest) == Some(Scanned(t, more))
    ensures StringBody(s) == Some(Scanned([b] + t, more))
  {
  }

  lemma {:induction false} EscapeReadBack(t: seq<Byte>, more: seq<Byte>)
    ensures StringBody(Escape(t) + ['\"'] + more) == Some(Scanned(t, more))
    decreases |t|
  {
    if t == [] {
      assert Escape(t) + ['\"'] + more == ['\"'] + more;
    } else {
      var after := Escape(t[1..]) + ['\"'] + more;
      var s := EscapeByte(t[0]) + after;
      assert Escape(t) + ['\"'] + more == s;
      EscapedByteRead(t[0], after);
      EscapeReadBack(t[1..], more);
      StringBodyStep(s, t[0], after, t[1..], more);
      assert [t[0]] + t[1..] == t;
    }
  }

  lemma QuoteReadBack(t: Text, more: seq<Byte>)
    ensures ParseString(Quote(t) + more) == Some(Scanned(t, more))
    ensures ParseValue(Quote(t) + more) == Some(Scanned(t, more))
  {
    var s := Quote(t) + more;
    assert s[1..] == Escape(t) + ['\"'] + more;
    EscapeReadBack(t, more);
    assert s[0] == '\"';
  }

  lemma FieldReadBack(f: Field, more: seq<Byte>)
    ensures ParseField(EncodeField(f) + more) == Some(Scanned(f, more))
    ensures SkipSpace(EncodeField(f) + more) == EncodeField(f) + more
  {
    var tail := [':'] + (Quote(f.value) + more);
    assert EncodeField(f) + more == Quote(f.name) + tail by {
      Join(Quote(f.name) + [':'], Quote(f.value), more);
      Join(Quote(f.name), [':'], Quote(f.value) + more);
    }
    QuoteReadBack(f.name, tail);
    assert SkipSpace(tail) == tail && tail[1..] == Quote(f.value) + more;
    QuoteReadBack(f.value, more);
    assert SkipSpace(Quote(f.value) + more) == Quote(f.value) + more;
  }

  lemma LastMember(s: seq<Byte>, f: Field, more: seq<Byte>)
    requires ParseField(SkipSpace(s)) == Some(Scanned(f, ['}'] + more))
    ensures ParseMembers(s) == Some(Scanned([f], more))
  {
    var tail := ['}'] + more;
    assert SkipSpace(tail) == tail && tail[1..] == more;
  }

  lemma NextMember(s: seq<Byte>, f: Field, rest: seq<Byte>, fields: Row, more: seq<Byte>)
    requires ParseField(SkipSpace(s)) == Some(Scanned(f, [','] + rest))
    requires ParseMembers(rest) == Some(Scanned(fields, more))
    ensures ParseMembers(s) == Some(Scanned([f] + fields, more))
  {
    var tail := [','] + rest;
    assert SkipSpace(tail) == tail && tail[1..] == rest;
  }

  lemma OneMemberReadBack(row: Row, more: seq<Byte>)
    requires |row| == 1
    ensures ParseMembers(EncodeMembers(row) + more) == Some(Scanned(row, more))
  {
    var tail := ['}'] + more;
    Join(EncodeField(row[0]), ['}'], more);
    FieldReadBack(row[0], tail);
    assert [row[0]] == row;
    LastMember(EncodeField(row[0]) + tail, row[0], more);
  }

  lemma FirstAndRest(row: Row)
    requires row != []
    ensures [row[0]] + row[1..] == row
  {
  }

  lemma OneMoreMember(row: Row, more: seq<Byte>)
    requires |row| > 1
    requires ParseMembers(EncodeMembers(row[1..]) + more) == Some(Scanned(row[1..], more))
    ensures ParseMembers(EncodeMembers(row) + more) == Some(Scanned(row, more))
  {
    var rest := EncodeMembers(row[1..]) + more;
    Join(EncodeField(row[0]), [','] + EncodeMembers(row[1..]), more);
    Join([','], EncodeMembers(row[1..]), more);
    FieldReadBack(row[0], [','] + rest);
    FirstAndRest(row);
    NextMember(EncodeField(row[0]) + ([','] + rest), row[0], rest, row[1..], more);
  }

  lemma {:induction false} MembersReadBack(row: Row, more: seq<Byte>)
    requires row != []
    ensures ParseMembers(EncodeMembers(row) + more) == Some(Scanned(row, more))
    decreases |row|
  {
    if |row| == 1 {
      OneMemberReadBack(row, more);
    } else {
      MembersReadBack(row[1..], more);
      OneMoreMember(row, more);
    }
  }

  lemma BodyOfObject(s: seq<Byte>, row: Row)
    requires s != [] && s[0] == '{' && s[1..] != [] && s[1] == '\"'
    requires ParseMembers(s[1..]) == Some(Scanned(row, []))
    ensures ParseFields(s) == Some(row)
  {
    assert SkipSpace(s) == s;
    assert SkipSpace(s[1..]) == s[1..] && s[1..][0] == '\"';
  }

  /** Every row the bank encodes is read back field by field. */
  lemma RowReadBack(row: Row)
    ensures ParseFields(EncodeRow(row)) == Some(row)
    ensures ParseRow(EncodeRow(row)) == Some(ToMap(row))
  {
    var s := EncodeRow(row);
    assert s[1..] == EncodeMembers(row);
    if row == [] {
      assert s == ['{', '}'] && SkipSpace(s) == s && SkipSpace(s[1..]) == s[1..] && s[1..][1..] == [];
    } else {
      assert EncodeMembers(row) + [] == EncodeMembers(row);
      MembersReadBack(row, []);
      assert EncodeMembers(row)[0] == EncodeField(row[0])[0] == '\"';
      BodyOfObject(s, row);
    }
  }
}
