/**
 Bytes, UTF-8 text and the byte classes the parsers test for.
 A byte is written as the character with its code, so that tokens can be spelled out.
 */
module Bytes {
  type Byte = c: char | c as int < 256

  type Text = s: seq<Byte> | ValidUtf8(s) witness []

  function Code(b: Byte): int {
    b as int
  }

  predicate Continuation(b: Byte) {
    0x80 <= Code(b) < 0xC0
  }

  /** Length of the well-formed UTF-8 sequence that starts the input, 0 if there is none. */
  function CharLength(s: seq<Byte>): nat
    requires s != []
    ensures CharLength(s) <= |s|
  {
    var b := Code(s[0]);
    if b < 0x80 then 1
    else if 0xC2 <= b < 0xE0 then
      if |s| >= 2 && Continuation(s[1]) then 2 else 0
    else if 0xE0 <= b < 0xF0 then
      if |s| >= 3 && Continuation(s[1]) && Continuation(s[2])
         && (b == 0xE0 ==> Code(s[1]) >= 0xA0) && (b == 0xED ==> Code(s[1]) < 0xA0) then 3 else 0
    else if 0xF0 <= b < 0xF5 then
      if |s| >= 4 && Continuation(s[1]) && Continuation(s[2]) && Continuation(s[3])
         && (b == 0xF0 ==> Code(s[1]) >= 0x90) && (b == 0xF4 ==> Code(s[1]) < 0x90) then 4 else 0
    else 0
  }

  predicate ValidUtf8(s: seq<Byte>)
    decreases |s|
  {
    s == [] || (CharLength(s) > 0 && ValidUtf8(s[CharLength(s)..]))
  }

  /** The encoding of a Unicode scalar value. */
  function Utf8(code: int): seq<Byte>
    requires 0 <= code < 0x11_0000
  {
    if code < 0x80 then [code as char]
    else if code < 0x800 then [(0xC0 + code / 0x40) as char, (0x80 + code % 0x40) as char]
    else if code < 0x1_0000 then
      [(0xE0 + code / 0x1000) as char, (0x80 + code / 0x40 % 0x40) as char, (0x80 + code % 0x40) as char]
    else
      [(0xF0 + code / 0x4_0000) as char, (0x80 + code / 0x1000 % 0x40) as char,
       (0x80 + code / 0x40 % 0x40) as char, (0x80 + code % 0x40) as char]
  }

  predicate Digit(b: Byte) {
    '0' <= b <= '9'
  }

  predicate Digits(s: seq<Byte>) {
    forall i :: 0 <= i < |s| ==> Digit(s[i])
  }

  function Flatten(chunks: seq<seq<Byte>>): seq<Byte>
    decreases |chunks|
  {
    if chunks == [] then [] else chunks[0] + Flatten(chunks[1..])
  }

  lemma {:induction false} FlattenAppend(chunks: seq<seq<Byte>>, chunk: seq<Byte>)
    ensures Flatten(chunks + [chunk]) == Flatten(chunks) + chunk
    decreases |chunks|
  {
    if chunks == [] {
      assert chunks + [chunk] == [chunk] && [chunk][1..] == [];
    } else {
      assert (chunks + [chunk])[1..] == chunks[1..] + [chunk];
      FlattenAppend(chunks[1..], chunk);
    }
  }
}
