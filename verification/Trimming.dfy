/**
 Removal of surrounding Unicode white space, on UTF-8 bytes.
 */
module Trimming {
  import opened Collections
  import opened Bytes

  /** The encoding of one white-space character. */
  predicate White(c: seq<Byte>) {
    if |c| == 1 then 9 <= Code(c[0]) <= 13 || Code(c[0]) == 32
    else if |c| == 2 then Code(c[0]) == 0xC2 && (Code(c[1]) == 0x85 || Code(c[1]) == 0xA0)
    else if |c| == 3 then
      || (Code(c[0]) == 0xE1 && Code(c[1]) == 0x9A && Code(c[2]) == 0x80)
      || (Code(c[0]) == 0xE2 && Code(c[1]) == 0x80
          && (0x80 <= Code(c[2]) <= 0x8A || 0xA8 <= Code(c[2]) <= 0xA9 || Code(c[2]) == 0xAF))
      || (Code(c[0]) == 0xE2 && Code(c[1]) == 0x81 && Code(c[2]) == 0x9F)
      || (Code(c[0]) == 0xE3 && Code(c[1]) == 0x80 && Code(c[2]) == 0x80)
    else false
  }

  /** Length of the white-space character at the start, 0 if there is none. */
  function LeadingWhite(s: seq<Byte>): (n: nat)
    ensures n <= |s| && (n > 0 ==> White(s[..n]))
  {
    if |s| >= 1 && White(s[..1]) then 1
    else if |s| >= 2 && White(s[..2]) then 2
    else if |s| >= 3 && White(s[..3]) then 3
    else 0
  }

  function TrailingWhite(s: seq<Byte>): (n: nat)
    ensures n <= |s| && (n > 0 ==> White(s[|s| - n..]))
  {
    if |s| >= 1 && White(s[|s| - 1..]) then 1
    else if |s| >= 2 && White(s[|s| - 2..]) then 2
    else if |s| >= 3 && White(s[|s| - 3..]) then 3
    else 0
  }

  lemma WhiteIsCharacter(s: seq<Byte>, n: nat)
    requires 0 < n <= |s| && White(s[..n])
    ensures CharLength(s) == n
  {
  }

  /** Only the first byte of a character can start one. */
  lemma NoCharacterInside(s: seq<Byte>, j: nat)
    requires s != [] && 0 < j < CharLength(s)
    ensures Continuation(s[j])
  {
  }

  lemma SameCharacter(s: seq<Byte>, k: nat)
    requires s != [] && 0 < CharLength(s) <= k <= |s|
    ensures CharLength(s[..k]) == CharLength(s)
  {
  }

  /** Taking a white-space character off the end leaves text. */
  lemma {:induction false} TextBeforeWhite(s: seq<Byte>, n: nat)
    requires ValidUtf8(s) && 0 < n <= |s| && White(s[|s| - n..])
    ensures ValidUtf8(s[..|s| - n])
    decreases |s|
  {
    var k, m := CharLength(s), |s| - n;
    if m > 0 {
      assert !Continuation(s[m]) by { assert s[m] == s[m..][0]; }
      if m < k { NoCharacterInside(s, m); }
      var rest := s[k..];
      assert rest[|rest| - n..] == s[m..];
      TextBeforeWhite(rest, n);
      assert s[..m][k..] == rest[..|rest| - n];
      SameCharacter(s, m);
    }
  }

  function TrimStart(t: Text): (r: Text)
    ensures |r| <= |t| && LeadingWhite(r) == 0
    decreases |t|
  {
    var n := LeadingWhite(t);
    if n == 0 then t else
      WhiteIsCharacter(t, n);
      TrimStart(t[n..])
  }

  function TrimEnd(t: Text): (r: Text)
    ensures |r| <= |t| && TrailingWhite(r) == 0
    decreases |t|
  {
    var n := TrailingWhite(t);
    if n == 0 then t else
      TextBeforeWhite(t, n);
      TrimEnd(t[..|t| - n])
  }

  function Trim(t: Text): Text {
    TrimEnd(TrimStart(t))
  }

  predicate AllWhite(characters: seq<seq<Byte>>) {
    forall i :: 0 <= i < |characters| ==> White(characters[i])
  }

  lemma InTwo(s: seq<Byte>, k: nat)
    requires k <= |s|
    ensures s == s[..k] + s[k..]
  {
  }

  lemma WhiteFirst(c: seq<Byte>, characters: seq<seq<Byte>>)
    requires White(c) && AllWhite(characters)
    ensures AllWhite([c] + characters) && Flatten([c] + characters) == c + Flatten(characters)
  {
    assert ([c] + characters)[1..] == characters;
  }

  lemma WhiteLast(characters: seq<seq<Byte>>, c: seq<Byte>)
    requires White(c) && AllWhite(characters)
    ensures AllWhite(characters + [c]) && Flatten(characters + [c]) == Flatten(characters) + c
  {
    FlattenAppend(characters, c);
  }

  lemma {:induction false} StartIsWhite(t: Text) returns (lead: seq<seq<Byte>>)
    ensures AllWhite(lead) && t == Flatten(lead) + TrimStart(t)
    decreases |t|
  {
    var n := LeadingWhite(t);
    if n == 0 {
      lead := [];
      assert t == [] + t;
    } else {
      WhiteIsCharacter(t, n);
      var more := StartIsWhite(t[n..]);
      lead := [t[..n]] + more;
      WhiteFirst(t[..n], more);
      InTwo(t, n);
      Join(t[..n], Flatten(more), TrimStart(t[n..]));
    }
  }

  lemma {:induction false} EndIsWhite(t: Text) returns (trail: seq<seq<Byte>>)
    ensures AllWhite(trail) && t == TrimEnd(t) + Flatten(trail)
    decreases |t|
  {
    var n := TrailingWhite(t);
    if n == 0 {
      trail := [];
      assert t == t + [];
    } else {
      TextBeforeWhite(t, n);
      var before := EndIsWhite(t[..|t| - n]);
      trail := before + [t[|t| - n..]];
      WhiteLast(before, t[|t| - n..]);
      InTwo(t, |t| - n);
      Join(TrimEnd(t[..|t| - n]), Flatten(before), t[|t| - n..]);
    }
  }

  /** Only white space is taken off, and none is left at either end. */
  lemma TrimmedIsCore(t: Text) returns (lead: seq<seq<Byte>>, trail: seq<seq<Byte>>)
    ensures AllWhite(lead) && AllWhite(trail) && t == Flatten(lead) + Trim(t) + Flatten(trail)
    ensures LeadingWhite(Trim(t)) == 0 && TrailingWhite(Trim(t)) == 0
  {
    lead := StartIsWhite(t);
    trail := EndIsWhite(TrimStart(t));
    Join(Flatten(lead), Trim(t), Flatten(trail));
    StartsAlike(Trim(t), Flatten(trail));
  }

  lemma StartsAlike(s: seq<Byte>, more: seq<Byte>)
    requires LeadingWhite(s + more) == 0
    ensures LeadingWhite(s) == 0
  {
    assert |s| >= 1 ==> (s + more)[..1] == s[..1];
    assert |s| >= 2 ==> (s + more)[..2] == s[..2];
    assert |s| >= 3 ==> (s + more)[..3] == s[..3];
  }

  /** No white-space character, of any length, is missed. */
  lemma NoneMissed(s: seq<Byte>, k: nat)
    requires k <= |s| && White(s[..k])
    ensures LeadingWhite(s) == k
  {
    if k == 2 { NotAlsoShorter(s, 1, 2); }
    if k == 3 { NotAlsoShorter(s, 1, 3); NotAlsoShorter(s, 2, 3); }
  }

  lemma NotAlsoShorter(s: seq<Byte>, k: nat, m: nat)
    requires 0 < k < m <= |s| && White(s[..m])
    ensures !White(s[..k])
  {
    assert s[..k][0] == s[..m][0];
  }

  lemma NoneMissedAtEnd(s: seq<Byte>, k: nat)
    requires k <= |s| && White(s[k..])
    ensures TrailingWhite(s) == |s| - k
  {
    if |s| - k == 2 { NotAlsoShorterAtEnd(s, 1, 2); }
    if |s| - k == 3 { NotAlsoShorterAtEnd(s, 1, 3); NotAlsoShorterAtEnd(s, 2, 3); }
  }

  lemma NotAlsoShorterAtEnd(s: seq<Byte>, k: nat, m: nat)
    requires 0 < k < m <= |s| && White(s[|s| - m..])
    ensures !White(s[|s| - k..])
  {
    assert s[|s| - k..][0] == s[|s| - m..][m - k];
  }

  lemma TrimStartOnce(c: seq<Byte>, rest: seq<Byte>)
    requires White(c) && ValidUtf8(c + rest)
    ensures ValidUtf8(rest) && TrimStart(c + rest) == TrimStart(rest)
  {
    assert (c + rest)[..|c|] == c && (c + rest)[|c|..] == rest;
    NoneMissed(c + rest, |c|);
    WhiteIsCharacter(c + rest, |c|);
  }

  lemma TrimEndOnce(rest: seq<Byte>, c: seq<Byte>)
    requires White(c) && ValidUtf8(rest + c)
    ensures ValidUtf8(rest) && TrimEnd(rest + c) == TrimEnd(rest)
  {
    assert (rest + c)[|rest|..] == c && (rest + c)[..|rest|] == rest;
    NoneMissedAtEnd(rest + c, |rest|);
    TextBeforeWhite(rest + c, |c|);
  }

  lemma {:induction false} LeadingIsTrimmed(lead: seq<seq<Byte>>, s: seq<Byte>)
    requires AllWhite(lead) && ValidUtf8(Flatten(lead) + s)
    ensures ValidUtf8(s) && TrimStart(Flatten(lead) + s) == TrimStart(s)
    decreases |lead|
  {
    if lead == [] {
      assert [] + s == s;
    } else {
      Join(lead[0], Flatten(lead[1..]), s);
      TrimStartOnce(lead[0], Flatten(lead[1..]) + s);
      LeadingIsTrimmed(lead[1..], s);
    }
  }

  lemma LastWhite(trail: seq<seq<Byte>>)
    requires AllWhite(trail) && trail != []
    ensures var n := |trail| - 1;
            White(trail[n]) && AllWhite(trail[..n]) && Flatten(trail) == Flatten(trail[..n]) + trail[n]
  {
    var n := |trail| - 1;
    FlattenAppend(trail[..n], trail[n]);
    assert trail[..n] + [trail[n]] == trail;
  }

  lemma {:induction false} TrailingIsTrimmed(s: seq<Byte>, trail: seq<seq<Byte>>)
    requires AllWhite(trail) && ValidUtf8(s + Flatten(trail))
    ensures ValidUtf8(s) && TrimEnd(s + Flatten(trail)) == TrimEnd(s)
    decreases |trail|
  {
    if trail == [] {
      assert s + [] == s;
    } else {
      var n := |trail| - 1;
      LastWhite(trail);
      Join(s, Flatten(trail[..n]), trail[n]);
      TrimEndOnce(s + Flatten(trail[..n]), trail[n]);
      TrailingIsTrimmed(s, trail[..n]);
    }
  }

  /** White space of any kind and amount around a core is taken off. */
  lemma PaddingIsTrimmed(lead: seq<seq<Byte>>, core: Text, trail: seq<seq<Byte>>)
    requires AllWhite(lead) && AllWhite(trail) && ValidUtf8(Flatten(lead) + (core + Flatten(trail)))
    requires core != [] && LeadingWhite(core) == 0 && TrailingWhite(core) == 0
    ensures Trim(Flatten(lead) + (core + Flatten(trail))) == core
  {
    LeadingIsTrimmed(lead, core + Flatten(trail));
    CoreStartsAlike(core, Flatten(trail));
    TrailingIsTrimmed(core, trail);
  }

  lemma CoreStartsAlike(core: Text, s: seq<Byte>)
    requires core != [] && LeadingWhite(core) == 0
    ensures LeadingWhite(core + s) == 0
  {
    var t := core + s;
    var k := CharLength(core);
    assert t[..k] == core[..k];
    SameCharacter(t, k);
    if LeadingWhite(t) > 0 {
      WhiteIsCharacter(t, LeadingWhite(t));
      NoneMissed(core, k);
    }
  }

  lemma NothingToTrim(t: Text)
    requires LeadingWhite(t) == 0 && TrailingWhite(t) == 0
    ensures Trim(t) == t
  {
  }
}
