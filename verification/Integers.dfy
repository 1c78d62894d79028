/**
 Reading 32-bit integers, and the texts that are read as each of them.
 */
module Integers {
  import opened Options
  import opened Bytes
  import opened Collections

  predicate FitsI32(n: int) {
    -0x8000_0000 <= n < 0x8000_0000
  }

  /** The number that digits stand for. */
  function Decimal(digits: seq<Byte>): nat
    requires Digits(digits)
    decreases |digits|
  {
    if digits == [] then 0
    else
      var n := |digits| - 1;
      assert Digit(digits[n]);
      10 * Decimal(digits[..n]) + (Code(digits[n]) - 48)
  }

  /** An optional sign and digits. */
  function ParseI32(s: seq<Byte>): Option<int> {
    var signed := s != [] && (s[0] == '-' || s[0] == '+');
    var digits := if signed then s[1..] else s;
    if digits == [] || !Digits(digits) then None
    else
      var magnitude: int := Decimal(digits);
      var n := if s[0] == '-' then 0 - magnitude else magnitude;
      if FitsI32(n) then Some(n) else None
  }

  // ----- written numbers -----------------------------------------------------------------

  function DigitOf(n: nat): (b: Byte)
    requires n < 10
    ensures Digit(b) && Code(b) == 48 + n
  {
    (48 + n) as char
  }

  /** The digits of a number, without leading zeros. */
  function DecimalText(n: nat): (s: seq<Byte>)
    ensures s != [] && Digits(s)
  {
    if n < 10 then [DigitOf(n)] else DecimalText(n / 10) + [DigitOf(n % 10)]
  }

  function Zeros(k: nat): (s: seq<Byte>)
    ensures |s| == k && Digits(s)
  {
    seq(k, _ => '0')
  }

  datatype Sign = NoSign | Plus | Minus

  function SignText(sign: Sign): seq<Byte> {
    match sign
    case NoSign => []
    case Plus => ['+']
    case Minus => ['-']
  }

  function Signed(sign: Sign, magnitude: nat): int {
    if sign == Minus then 0 - magnitude else magnitude
  }

  /** A number with its sign and leading zeros. */
  function Written(sign: Sign, zeros: nat, magnitude: nat): seq<Byte> {
    SignText(sign) + (Zeros(zeros) + DecimalText(magnitude))
  }

  lemma DecimalAppend(digits: seq<Byte>, d: nat)
    requires Digits(digits) && d < 10
    ensures Digits(digits + [DigitOf(d)]) && Decimal(digits + [DigitOf(d)]) == 10 * Decimal(digits) + d
  {
    assert (digits + [DigitOf(d)])[..|digits|] == digits;
  }

  lemma {:induction false} DecimalTextIsRead(n: nat)
    ensures Decimal(DecimalText(n)) == n
  {
    if n < 10 {
      DecimalAppend([], n);
      assert [] + [DigitOf(n)] == [DigitOf(n)];
    } else {
      DecimalTextIsRead(n / 10);
      DecimalAppend(DecimalText(n / 10), n % 10);
    }
  }

  lemma LastDigit(digits: seq<Byte>)
    requires Digits(digits) && digits != []
    ensures var n := |digits| - 1;
            Digit(digits[n]) && Decimal(digits) == 10 * Decimal(digits[..n]) + (Code(digits[n]) - 48)
  {
    assert Digit(digits[|digits| - 1]);
  }

  lemma {:induction false} ZerosAreNothing(zeros: nat)
    ensures Decimal(Zeros(zeros)) == 0
  {
    if zeros > 0 {
      ZerosAreNothing(zeros - 1);
      assert Zeros(zeros) == Zeros(zeros - 1) + [DigitOf(0)];
      DecimalAppend(Zeros(zeros - 1), 0);
    }
  }

  lemma {:induction false} NothingInFront(front: seq<Byte>, digits: seq<Byte>)
    requires Digits(front) && Digits(digits) && Decimal(front) == 0
    ensures Digits(front + digits) && Decimal(front + digits) == Decimal(digits)
    decreases |digits|
  {
    if digits == [] {
      assert front + digits == front;
    } else {
      var n, all := |digits| - 1, front + digits;
      NothingInFront(front, digits[..n]);
      assert all[..|all| - 1] == front + digits[..n] && all[|all| - 1] == digits[n];
      assert Digits(all);
      LastDigit(all);
      LastDigit(digits);
    }
  }

  lemma SignedIsRead(sign: Sign, digits: seq<Byte>)
    requires Digits(digits) && digits != []
    ensures var n := Signed(sign, Decimal(digits));
            ParseI32(SignText(sign) + digits) == if FitsI32(n) then Some(n) else None
  {
    var s := SignText(sign) + digits;
    assert Digit(digits[0]);
    if sign == NoSign {
      assert s == digits;
    } else {
      assert s[1..] == digits;
    }
  }

  /** A written number is read as that number, or not at all if it does not fit. */
  lemma WrittenIsRead(sign: Sign, zeros: nat, magnitude: nat)
    ensures ParseI32(Written(sign, zeros, magnitude))
            == if FitsI32(Signed(sign, magnitude)) then Some(Signed(sign, magnitude)) else None
  {
    ZerosAreNothing(zeros);
    NothingInFront(Zeros(zeros), DecimalText(magnitude));
    DecimalTextIsRead(magnitude);
    SignedIsRead(sign, Zeros(zeros) + DecimalText(magnitude));
  }

  /** Digits are leading zeros and the text of their number. */
  lemma {:induction false} DigitsAreText(digits: seq<Byte>) returns (zeros: nat)
    requires Digits(digits) && digits != []
    ensures digits == Zeros(zeros) + DecimalText(Decimal(digits))
    decreases |digits|
  {
    var n := |digits| - 1;
    LastDigit(digits);
    var d := Code(digits[n]) - 48;
    var before := Decimal(digits[..n]);
    assert digits == digits[..n] + [DigitOf(d)];
    zeros := 0;
    if n > 0 {
      zeros := DigitsAreText(digits[..n]);
      if before == 0 {
        assert Zeros(zeros) + DecimalText(0) == Zeros(zeros + 1);
        zeros := zeros + 1;
      } else {
        TextAppend(before, d);
        Join(Zeros(zeros), DecimalText(before), [DigitOf(d)]);
      }
    }
  }

  lemma TextAppend(n: nat, d: nat)
    requires n > 0 && d < 10
    ensures DecimalText(10 * n + d) == DecimalText(n) + [DigitOf(d)]
  {
  }

  /** Whatever is read was written so. */
  lemma ReadIsWritten(s: seq<Byte>) returns (sign: Sign, zeros: nat, magnitude: nat)
    requires ParseI32(s).Some?
    ensures s == Written(sign, zeros, magnitude) && ParseI32(s) == Some(Signed(sign, magnitude))
  {
    sign := if s[0] == '-' then Minus else if s[0] == '+' then Plus else NoSign;
    var digits := if sign == NoSign then s else s[1..];
    magnitude := Decimal(digits);
    zeros := DigitsAreText(digits);
    assert s == SignText(sign) + digits;
  }

  ghost predicate WrittenAs(s: seq<Byte>, n: int, sign: Sign, zeros: nat, magnitude: nat) {
    s == Written(sign, zeros, magnitude) && n == Signed(sign, magnitude)
  }

  /** A text is read as a number exactly if it is that number written, and the number fits 32 bits. */
  lemma ReadExactly(s: seq<Byte>, n: int)
    ensures ParseI32(s) == Some(n) <==>
            FitsI32(n) && exists sign, zeros, magnitude :: WrittenAs(s, n, sign, zeros, magnitude)
  {
    if ParseI32(s) == Some(n) {
      var sign, zeros, magnitude := ReadIsWritten(s);
      WrittenIsRead(sign, zeros, magnitude);
      assert WrittenAs(s, n, sign, zeros, magnitude);
    }
    if sign, zeros, magnitude :| WrittenAs(s, n, sign, zeros, magnitude) {
      WrittenIsRead(sign, zeros, magnitude);
    }
  }
}
