/**
 How the adapter cuts one JSON object out of a byte stream, and why that is right for
 every object of the JSON grammar (RFC 8259, sections 2 to 7), whatever follows it.
 */
module Framing {
  import opened Collections
  import opened Options
  import opened Bytes
  import opened Json

  // ----- the scanner -----------------------------------------------------------------

  datatype Scan = Scan(depth: int, inString: bool, escape: bool)

  const OUTSIDE := Scan(0, false, false)

  function Feed(st: Scan, b: Byte): Scan {
    if st.inString then
      if st.escape then st.(escape := false)
      else if b == '\\' then st.(escape := true)
      else if b == '\"' then st.(inString := false)
      else st
    else if b == '\"' then st.(inString := true)
    else if b == '{' then st.(depth := st.depth + 1)
    else if b == '}' then st.(depth := st.depth - 1)
    else st
  }

  /** The byte is a closing brace, outside of strings, that brings the depth to zero. */
  predicate Closes(st: Scan, b: Byte) {
    !st.inString && b == '}' && st.depth == 1
  }

  /** How many bytes the scanner takes until the object is closed; None if it never is. */
  function Frame(st: Scan, s: seq<Byte>): (n: Option<nat>)
    ensures n.Some? ==> 0 < n.value <= |s| && s[n.value - 1] == '}'
    decreases |s|
  {
    if s == [] then None
    else if Closes(st, s[0]) then Some(1)
    else
      var more := Frame(Feed(st, s[0]), s[1..]);
      if more.None? then None else Some(1 + more.value)
  }

  /** The scanner state after some bytes. */
  function After(st: Scan, s: seq<Byte>): Scan
    decreases |s|
  {
    if s == [] then st else After(Feed(st, s[0]), s[1..])
  }

  lemma {:induction false} AfterConcat(st: Scan, a: seq<Byte>, b: seq<Byte>)
    ensures After(st, a + b) == After(After(st, a), b)
    decreases |a|
  {
    if a == [] {
      assert a + b == b;
    } else {
      assert (a + b)[1..] == a[1..] + b;
      AfterConcat(Feed(st, a[0]), a[1..], b);
    }
  }

  /** A stretch in which the object is not closed only moves the scanner on. */
  lemma {:induction false} FrameConcat(st: Scan, a: seq<Byte>, b: seq<Byte>)
    requires Frame(st, a).None?
    ensures var more := Frame(After(st, a), b);
            Frame(st, a + b) == if more.None? then None else Some(|a| + more.value)
    decreases |a|
  {
    if a == [] {
      assert a + b == b;
    } else {
      assert (a + b)[1..] == a[1..] + b;
      FrameConcat(Feed(st, a[0]), a[1..], b);
    }
  }

  /** A closed object is cut off without looking at what follows. */
  lemma {:induction false} FrameIgnoresRest(st: Scan, a: seq<Byte>, b: seq<Byte>)
    requires Frame(st, a).Some?
    ensures Frame(st, a + b) == Frame(st, a)
    decreases |a|
  {
    assert (a + b)[1..] == a[1..] + b;
    if !Closes(st, a[0]) { FrameIgnoresRest(Feed(st, a[0]), a[1..], b); }
  }

  /** A piece that neither closes the object nor leaves a trace. */
  predicate Neutral(st: Scan, s: seq<Byte>) {
    Frame(st, s).None? && After(st, s) == st
  }

  lemma NeutralConcat(st: Scan, a: seq<Byte>, b: seq<Byte>)
    requires Neutral(st, a) && Neutral(st, b)
    ensures Neutral(st, a + b)
  {
    FrameConcat(st, a, b);
    AfterConcat(st, a, b);
  }

  // ----- the JSON grammar --------------------------------------------------------------

  /** A character of a string: itself, or a backslash and the byte it escapes. */
  datatype StringUnit = Plain(b: Byte) | Escaped(b: Byte)

  /** An array element or member value with the white space around it. */
  datatype Padded = Padded(before: seq<Byte>, value: Value, after: seq<Byte>)

  datatype Member = Member(before: seq<Byte>, name: seq<StringUnit>, colon: seq<Byte>, value: Padded)

  datatype Value =
    | Literal(token: seq<Byte>)             // a number, true, false or null
    | Str(units: seq<StringUnit>)
    | Array(space: seq<Byte>, elements: seq<Padded>)
    | Object(space: seq<Byte>, members: seq<Member>)

  predicate Blank(s: seq<Byte>) {
    forall i :: 0 <= i < |s| ==> Space(s[i])
  }

  /** OUTSIDE of strings: neither a quote nor a brace. */
  predicate Quiet(b: Byte) {
    b != '\"' && b != '{' && b != '}'
  }

  predicate GoodUnits(units: seq<StringUnit>) {
    forall i :: 0 <= i < |units| ==> units[i].Plain? ==> units[i].b != '\"' && units[i].b != '\\'
  }

  predicate GoodValue(v: Value)
    decreases v, 1
  {
    match v
    case Literal(token) => forall i :: 0 <= i < |token| ==> Quiet(token[i])
    case Str(units) => GoodUnits(units)
    case Array(space, elements) => Blank(space) && GoodElements(elements)
    case Object(space, members) => Blank(space) && GoodMembers(members)
  }

  predicate GoodPadded(p: Padded)
    decreases p, 0
  {
    Blank(p.before) && Blank(p.after) && GoodValue(p.value)
  }

  predicate GoodElements(elements: seq<Padded>)
    decreases elements, 0
  {
    elements == [] || (GoodPadded(elements[0]) && GoodElements(elements[1..]))
  }

  predicate GoodMembers(members: seq<Member>)
    decreases members, 0
  {
    members == [] ||
    (var m := members[0];
     && Blank(m.before) && Blank(m.colon) && GoodUnits(m.name) && GoodPadded(m.value)
     && GoodMembers(members[1..]))
  }

  function RenderUnits(units: seq<StringUnit>): seq<Byte>
    decreases |units|
  {
    if units == [] then []
    else (if units[0].Plain? then [units[0].b] else ['\\', units[0].b]) + RenderUnits(units[1..])
  }

  function RenderString(units: seq<StringUnit>): seq<Byte> {
    ['\"'] + (RenderUnits(units) + ['\"'])
  }

  /** The text of a value. */
  function Render(v: Value): seq<Byte>
    decreases v, 1
  {
    match v
    case Literal(token) => token
    case Str(units) => RenderString(units)
    case Array(space, elements) => ['['] + (space + (RenderElements(elements) + [']']))
    case Object(space, members) => ['{'] + (ObjectInside(space, members) + ['}'])
  }

  function ObjectInside(space: seq<Byte>, members: seq<Member>): seq<Byte>
    decreases members, 1
  {
    space + RenderMembers(members)
  }

  function RenderPadded(p: Padded): seq<Byte>
    decreases p, 0
  {
    p.before + (Render(p.value) + p.after)
  }

  function RenderElements(elements: seq<Padded>): seq<Byte>
    decreases elements, 0
  {
    if elements == [] then []
    else if |elements| == 1 then RenderPadded(elements[0])
    else RenderPadded(elements[0]) + ([','] + RenderElements(elements[1..]))
  }

  function RenderMember(m: Member): seq<Byte>
    decreases m, 0
  {
    m.before + (RenderString(m.name) + (m.colon + ([':'] + RenderPadded(m.value))))
  }

  function RenderMembers(members: seq<Member>): seq<Byte>
    decreases members, 0
  {
    if members == [] then []
    else if |members| == 1 then RenderMember(members[0])
    else RenderMember(members[0]) + ([','] + RenderMembers(members[1..]))
  }

  // ----- framing -------------------------------------------------------------------------

  /** Inside the object and outside of strings. */
  predicate Inside(st: Scan) {
    st.depth >= 1 && !st.inString && !st.escape
  }

  lemma {:induction false} QuietIsNeutral(st: Scan, s: seq<Byte>)
    requires Inside(st) && forall i :: 0 <= i < |s| ==> Quiet(s[i])
    ensures Neutral(st, s)
    decreases |s|
  {
    if s != [] { QuietIsNeutral(st, s[1..]); }
  }

  lemma {:induction false} UnitsAreNeutral(st: Scan, units: seq<StringUnit>)
    requires st.inString && !st.escape && GoodUnits(units)
    ensures Neutral(st, RenderUnits(units))
    decreases |units|
  {
    if units != [] {
      var head := if units[0].Plain? then [units[0].b] else ['\\', units[0].b];
      assert Neutral(st, head) by {
        if units[0].Escaped? {
          var b := units[0].b;
          assert head[1..] == [b] && [b][1..] == [];
          assert Feed(st.(escape := true), b) == st;
          assert After(st.(escape := true), [b]) == st && Frame(st.(escape := true), [b]).None?;
        } else {
          assert head[1..] == [];
        }
      }
      UnitsAreNeutral(st, units[1..]);
      NeutralConcat(st, head, RenderUnits(units[1..]));
    }
  }

  lemma StringIsNeutral(st: Scan, units: seq<StringUnit>)
    requires Inside(st) && GoodUnits(units)
    ensures Neutral(st, RenderString(units))
  {
    var s := RenderUnits(units);
    var quoted := st.(inString := true);
    UnitsAreNeutral(quoted, units);
    FrameConcat(quoted, s, ['\"']);
    AfterConcat(quoted, s, ['\"']);
    assert ['\"'][1..] == [];
    assert RenderString(units)[1..] == s + ['\"'];
  }

  lemma {:induction false} ValueIsNeutral(st: Scan, v: Value)
    requires Inside(st) && GoodValue(v)
    ensures Neutral(st, Render(v))
    decreases v, 1
  {
    match v
    case Literal(token) => QuietIsNeutral(st, token);
    case Str(units) => StringIsNeutral(st, units);
    case Array(space, elements) => ArrayIsNeutral(st, space, elements);
    case Object(space, members) =>
      InsideIsNeutral(st.(depth := st.depth + 1), space, members);
      BracesAreNeutral(st, ObjectInside(space, members));
  }

  lemma {:induction false} ArrayIsNeutral(st: Scan, space: seq<Byte>, elements: seq<Padded>)
    requires Inside(st) && Blank(space) && GoodElements(elements)
    ensures Neutral(st, ['['] + (space + (RenderElements(elements) + [']'])))
    decreases elements, 1
  {
    var inside := RenderElements(elements);
    ElementsAreNeutral(st, elements);
    QuietIsNeutral(st, ['[']);
    QuietIsNeutral(st, [']']);
    QuietIsNeutral(st, space);
    NeutralConcat(st, inside, [']']);
    NeutralConcat(st, space, inside + [']']);
    NeutralConcat(st, ['['], space + (inside + [']']));
  }

  /** A brace pair around what is neutral one level deeper. */
  lemma BracesAreNeutral(st: Scan, inside: seq<Byte>)
    requires Inside(st) && Neutral(st.(depth := st.depth + 1), inside)
    ensures Neutral(st, ['{'] + (inside + ['}']))
  {
    var inner := st.(depth := st.depth + 1);
    FrameConcat(inner, inside, ['}']);
    AfterConcat(inner, inside, ['}']);
    assert ['}'][1..] == [];
    assert (['{'] + (inside + ['}']))[1..] == inside + ['}'];
  }

  lemma {:induction false} PaddedIsNeutral(st: Scan, p: Padded)
    requires Inside(st) && GoodPadded(p)
    ensures Neutral(st, RenderPadded(p))
    decreases p, 0
  {
    QuietIsNeutral(st, p.before);
    QuietIsNeutral(st, p.after);
    ValueIsNeutral(st, p.value);
    NeutralConcat(st, Render(p.value), p.after);
    NeutralConcat(st, p.before, Render(p.value) + p.after);
  }

  lemma {:induction false} ElementsAreNeutral(st: Scan, elements: seq<Padded>)
    requires Inside(st) && GoodElements(elements)
    ensures Neutral(st, RenderElements(elements))
    decreases elements, 0
  {
    if elements != [] {
      PaddedIsNeutral(st, elements[0]);
      if |elements| > 1 {
        ElementsAreNeutral(st, elements[1..]);
        QuietIsNeutral(st, [',']);
        NeutralConcat(st, [','], RenderElements(elements[1..]));
        NeutralConcat(st, RenderPadded(elements[0]), [','] + RenderElements(elements[1..]));
      }
    }
  }

  lemma {:induction false} MemberIsNeutral(st: Scan, m: Member)
    requires Inside(st) && Blank(m.before) && Blank(m.colon) && GoodUnits(m.name) && GoodPadded(m.value)
    ensures Neutral(st, RenderMember(m))
    decreases m, 0
  {
    QuietIsNeutral(st, m.before);
    StringIsNeutral(st, m.name);
    QuietIsNeutral(st, m.colon);
    QuietIsNeutral(st, [':']);
    PaddedIsNeutral(st, m.value);
    NeutralConcat(st, [':'], RenderPadded(m.value));
    NeutralConcat(st, m.colon, [':'] + RenderPadded(m.value));
    NeutralConcat(st, RenderString(m.name), m.colon + ([':'] + RenderPadded(m.value)));
    NeutralConcat(st, m.before, RenderString(m.name) + (m.colon + ([':'] + RenderPadded(m.value))));
  }

  lemma {:induction false} MembersAreNeutral(st: Scan, members: seq<Member>)
    requires Inside(st) && GoodMembers(members)
    ensures Neutral(st, RenderMembers(members))
    decreases members, 0
  {
    if members != [] {
      MemberIsNeutral(st, members[0]);
      if |members| > 1 {
        MembersAreNeutral(st, members[1..]);
        QuietIsNeutral(st, [',']);
        NeutralConcat(st, [','], RenderMembers(members[1..]));
        NeutralConcat(st, RenderMember(members[0]), [','] + RenderMembers(members[1..]));
      }
    }
  }

  lemma {:induction false} InsideIsNeutral(st: Scan, space: seq<Byte>, members: seq<Member>)
    requires Inside(st) && Blank(space) && GoodMembers(members)
    ensures Neutral(st, ObjectInside(space, members))
    decreases members, 1
  {
    QuietIsNeutral(st, space);
    MembersAreNeutral(st, members);
    NeutralConcat(st, space, RenderMembers(members));
  }

  /**
   Framing.  The scanner takes exactly the bytes of the object, at any nesting depth and
   with any braces or escaped quotes in its strings, and leaves the rest unread.
   */
  lemma ObjectIsFramed(o: Value, rest: seq<Byte>)
    requires o.Object? && GoodValue(o)
    ensures Frame(OUTSIDE, Render(o) + rest) == Some(|Render(o)|)
  {
    var inside := ObjectInside(o.space, o.members);
    var one := Scan(1, false, false);
    InsideIsNeutral(one, o.space, o.members);
    FrameConcat(one, inside, ['}']);
    assert Render(o)[1..] == inside + ['}'];
    assert Frame(one, inside + ['}']) == Some(|inside| + 1);
    assert Frame(OUTSIDE, Render(o)) == Some(|Render(o)|);
    FrameIgnoresRest(OUTSIDE, Render(o), rest);
  }

  // ----- the bank's rows are such objects -----------------------------------------------------

  function UnitsOfByte(b: Byte): seq<StringUnit> {
    var e := EscapeByte(b);
    if |e| == 1 then [Plain(b)]
    else if |e| == 2 then [Escaped(e[1])]
    else [Escaped('u'), Plain('0'), Plain('0'), Plain(e[4]), Plain(e[5])]
  }

  function UnitsOf(t: seq<Byte>): seq<StringUnit>
    decreases |t|
  {
    if t == [] then [] else UnitsOfByte(t[0]) + UnitsOf(t[1..])
  }

  lemma UnitsOfByteGood(b: Byte)
    ensures GoodUnits(UnitsOfByte(b)) && RenderUnits(UnitsOfByte(b)) == EscapeByte(b)
  {
    var u := UnitsOfByte(b);
    var e := EscapeByte(b);
    if |e| == 6 {
      assert RenderUnits([u[4]]) == [e[5]];
      assert RenderUnits([u[3], u[4]]) == [e[4], e[5]] by { assert [u[3], u[4]][1..] == [u[4]]; }
      assert RenderUnits([u[2], u[3], u[4]]) == ['0', e[4], e[5]] by { assert [u[2], u[3], u[4]][1..] == [u[3], u[4]]; }
      assert RenderUnits(u[1..]) == ['0', '0', e[4], e[5]] by { assert u[1..][1..] == [u[2], u[3], u[4]]; }
    } else {
      assert u[1..] == [];
    }
  }

  lemma {:induction false} RenderUnitsConcat(a: seq<StringUnit>, b: seq<StringUnit>)
    ensures RenderUnits(a + b) == RenderUnits(a) + RenderUnits(b)
    decreases |a|
  {
    if a == [] {
      assert a + b == b;
    } else {
      assert (a + b)[1..] == a[1..] + b;
      RenderUnitsConcat(a[1..], b);
    }
  }

  lemma {:induction false} UnitsOfRender(t: seq<Byte>)
    ensures GoodUnits(UnitsOf(t)) && RenderUnits(UnitsOf(t)) == Escape(t)
    decreases |t|
  {
    if t != [] {
      UnitsOfByteGood(t[0]);
      UnitsOfRender(t[1..]);
      RenderUnitsConcat(UnitsOfByte(t[0]), UnitsOf(t[1..]));
    }
  }

  function MemberOf(f: Field): Member {
    Member([], UnitsOf(f.name), [], Padded([], Str(UnitsOf(f.value)), []))
  }

  function MembersOf(row: Row): seq<Member>
    ensures |MembersOf(row)| == |row|
    decreases |row|
  {
    if row == [] then [] else [MemberOf(row[0])] + MembersOf(row[1..])
  }

  lemma StringOfRender(t: seq<Byte>)
    ensures GoodUnits(UnitsOf(t)) && RenderString(UnitsOf(t)) == Quote(t)
  {
    UnitsOfRender(t);
    Join(['\"'], Escape(t), ['\"']);
  }

  lemma MemberOfRender(f: Field)
    ensures RenderMember(MemberOf(f)) == EncodeField(f)
    ensures GoodUnits(UnitsOf(f.name)) && GoodPadded(MemberOf(f).value)
  {
    StringOfRender(f.name);
    StringOfRender(f.value);
    var m := MemberOf(f);
    assert RenderPadded(m.value) == Quote(f.value);
    assert RenderMember(m) == Quote(f.name) + ([':'] + Quote(f.value));
    Join(Quote(f.name), [':'], Quote(f.value));
  }

  lemma {:induction false} MembersOfRender(row: Row)
    ensures GoodMembers(MembersOf(row))
    ensures RenderMembers(MembersOf(row)) + ['}'] == EncodeMembers(row)
    decreases |row|
  {
    if row != [] {
      MemberOfRender(row[0]);
      MembersOfRender(row[1..]);
      var ms := MembersOf(row);
      assert ms[1..] == MembersOf(row[1..]);
      if |row| > 1 {
        Join(EncodeField(row[0]), [','] + RenderMembers(ms[1..]), ['}']);
        Join([','], RenderMembers(ms[1..]), ['}']);
      }
    }
  }

  lemma RowIsFramed(row: Row, rest: seq<Byte>)
    ensures Frame(OUTSIDE, EncodeRow(row) + rest) == Some(|EncodeRow(row)|)
  {
    var o := Object([], MembersOf(row));
    MembersOfRender(row);
    assert [] + RenderMembers(MembersOf(row)) == RenderMembers(MembersOf(row));
    assert Render(o) == EncodeRow(row);
    ObjectIsFramed(o, rest);
  }

  // ----- a row cut short is never framed --------------------------------------------------------

  lemma {:induction false} NoBraceNoFrame(st: Scan, s: seq<Byte>)
    requires forall i :: 0 <= i < |s| ==> s[i] != '}'
    ensures Frame(st, s).None?
    decreases |s|
  {
    if s != [] { NoBraceNoFrame(Feed(st, s[0]), s[1..]); }
  }

  lemma CutIsNotFramed(whole: seq<Byte>, cut: seq<Byte>, gone: seq<Byte>, tail: seq<Byte>)
    requires whole == cut + gone && gone != [] && Frame(OUTSIDE, whole) == Some(|whole|)
    requires forall i :: 0 <= i < |tail| ==> tail[i] != '}'
    ensures Frame(OUTSIDE, cut + tail).None?
  {
    if Frame(OUTSIDE, cut).Some? { FrameIgnoresRest(OUTSIDE, cut, gone); }
    FrameConcat(OUTSIDE, cut, tail);
    NoBraceNoFrame(After(OUTSIDE, cut), tail);
  }

  lemma AnyCutIsNotFramed(whole: seq<Byte>, n: nat, tail: seq<Byte>)
    requires n < |whole| && Frame(OUTSIDE, whole) == Some(|whole|)
    requires forall i :: 0 <= i < |tail| ==> tail[i] != '}'
    ensures Frame(OUTSIDE, whole[..n] + tail).None?
  {
    CutIsNotFramed(whole, whole[..n], whole[n..], tail);
  }

  lemma RowIsFramedAlone(row: Row)
    ensures Frame(OUTSIDE, EncodeRow(row)) == Some(|EncodeRow(row)|)
  {
    RowIsFramed(row, []);
    assert EncodeRow(row) + [] == EncodeRow(row);
  }

  /** Any proper prefix of a row, followed by bytes without a closing brace, is no object. */
  lemma CutRowIsNotFramed(row: Row, n: nat, tail: seq<Byte>)
    requires n < |EncodeRow(row)|
    requires forall i :: 0 <= i < |tail| ==> tail[i] != '}'
    ensures Frame(OUTSIDE, EncodeRow(row)[..n] + tail).None?
  {
    RowIsFramedAlone(row);
    AnyCutIsNotFramed(EncodeRow(row), n, tail);
  }
}
