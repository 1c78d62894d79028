/**
 Date normalisation: three written forms, one canonical form (RFC 3339, section 5.6).
 */
module Dates {
  import opened Options
  import opened Bytes
  import opened Trimming

  datatype Date = Date(year: nat, month: nat, day: nat)

  datatype Format = Basic | Iso | European

  // ----- calendar ----------------------------------------------------------------------------

  predicate LeapYear(year: nat) {
    year % 4 == 0 && (year % 100 != 0 || year % 400 == 0)
  }

  /** RFC 3339, section 5.7. */
  function DaysIn(year: nat, month: nat): nat {
    if month == 2 then (if LeapYear(year) then 29 else 28)
    else if month == 4 || month == 6 || month == 9 || month == 11 then 30
    else 31
  }

  predicate InCalendar(d: Date) {
    d.year <= 9999 && 1 <= d.month <= 12 && 1 <= d.day <= DaysIn(d.year, d.month)
  }

  // ----- digits ------------------------------------------------------------------------------

  function Two(n: nat): (s: seq<Byte>)
    requires n < 100
    ensures |s| == 2 && Digits(s)
  {
    [(48 + n / 10) as char, (48 + n % 10) as char]
  }

  function Four(n: nat): (s: seq<Byte>)
    requires n < 10_000
    ensures |s| == 4 && Digits(s)
  {
    Two(n / 100) + Two(n % 100)
  }

  function Number2(s: seq<Byte>): (n: nat)
    requires |s| == 2 && Digits(s)
    ensures n < 100
  {
    10 * (Code(s[0]) - 48) + (Code(s[1]) - 48)
  }

  function Number4(s: seq<Byte>): (n: nat)
    requires |s| == 4 && Digits(s)
    ensures n < 10_000
  {
    100 * Number2(s[..2]) + Number2(s[2..])
  }

  lemma TwoIsRead(n: nat)
    requires n < 100
    ensures Number2(Two(n)) == n
  {
  }

  lemma FourIsRead(n: nat)
    requires n < 10_000
    ensures Number4(Four(n)) == n
  {
    TwoIsRead(n / 100);
    TwoIsRead(n % 100);
    assert Four(n)[..2] == Two(n / 100) && Four(n)[2..] == Two(n % 100);
  }

  lemma Number2IsWritten(s: seq<Byte>)
    requires |s| == 2 && Digits(s)
    ensures Two(Number2(s)) == s
  {
    assert Digit(s[0]) && Digit(s[1]);
  }

  lemma Number4IsWritten(s: seq<Byte>)
    requires |s| == 4 && Digits(s)
    ensures Four(Number4(s)) == s
  {
    Number2IsWritten(s[..2]);
    Number2IsWritten(s[2..]);
    assert Number4(s) / 100 == Number2(s[..2]) && Number4(s) % 100 == Number2(s[2..]);
    assert s == s[..2] + s[2..];
  }

  // ----- the written forms ---------------------------------------------------------------------

  /** Year, month and day, and what stands between them. */
  datatype Parts = Parts(year: seq<Byte>, month: seq<Byte>, day: seq<Byte>, marks: seq<Byte>)

  function Length(f: Format): nat {
    if f.Basic? then 8 else 10
  }

  function PartsOf(f: Format, raw: seq<Byte>): (p: Parts)
    requires |raw| == Length(f)
    ensures |p.year| == 4 && |p.month| == 2 && |p.day| == 2
  {
    match f
    case Basic => Parts(raw[..4], raw[4..6], raw[6..], [])
    case Iso => Parts(raw[..4], raw[5..7], raw[8..], [raw[4], raw[7]])
    case European => Parts(raw[6..], raw[3..5], raw[..2], [raw[2], raw[5]])
  }

  function Marks(f: Format): seq<Byte> {
    match f
    case Basic => []
    case Iso => ['-', '-']
    case European => ['.', '.']
  }

  /** The regular expression of the format. */
  predicate Matches(f: Format, raw: seq<Byte>) {
    |raw| == Length(f)
    && var p := PartsOf(f, raw);
       Digits(p.year) && Digits(p.month) && Digits(p.day) && p.marks == Marks(f)
  }

  /** The pattern of the format, for text its expression matches. */
  function Read(f: Format, raw: seq<Byte>): Option<Date>
    requires Matches(f, raw)
  {
    var p := PartsOf(f, raw);
    var d := Date(Number4(p.year), Number2(p.month), Number2(p.day));
    if InCalendar(d) then Some(d) else None
  }

  function Write(f: Format, d: Date): (raw: seq<Byte>)
    requires InCalendar(d)
    ensures |raw| == Length(f)
  {
    match f
    case Basic => Four(d.year) + Two(d.month) + Two(d.day)
    case Iso => Four(d.year) + ['-'] + Two(d.month) + ['-'] + Two(d.day)
    case European => Two(d.day) + ['.'] + Two(d.month) + ['.'] + Four(d.year)
  }

  lemma PartsOfWritten(f: Format, d: Date)
    requires InCalendar(d)
    ensures PartsOf(f, Write(f, d)) == Parts(Four(d.year), Two(d.month), Two(d.day), Marks(f))
  {
  }

  lemma WrittenIsRead(f: Format, d: Date)
    requires InCalendar(d)
    ensures Matches(f, Write(f, d)) && Read(f, Write(f, d)) == Some(d)
  {
    PartsOfWritten(f, d);
    FourIsRead(d.year);
    TwoIsRead(d.month);
    TwoIsRead(d.day);
  }

  lemma ReadIsWritten(f: Format, raw: seq<Byte>)
    requires Matches(f, raw) && Read(f, raw).Some?
    ensures Write(f, Read(f, raw).value) == raw
  {
    var p := PartsOf(f, raw);
    Number4IsWritten(p.year);
    Number2IsWritten(p.month);
    Number2IsWritten(p.day);
  }

  lemma ThirdByte(raw: seq<Byte>)
    requires |raw| == 10
    ensures Matches(Iso, raw) ==> Digit(raw[2])
    ensures Matches(European, raw) ==> raw[2] == '.'
  {
    assert PartsOf(Iso, raw).year[2] == raw[2] && PartsOf(European, raw).marks[0] == raw[2];
  }

  /** No text has two of the forms. */
  lemma OneForm(f: Format, g: Format, raw: seq<Byte>)
    requires Matches(f, raw) && Matches(g, raw)
    ensures f == g
  {
    if |raw| == 10 { ThirdByte(raw); }
  }

  // ----- parsing ---------------------------------------------------------------------------------

  datatype Parsed = Null | Value(text: Text) | Invalid(raw: Text)

  const FORMATS: seq<Format> := [Basic, Iso, European]

  /** The first format that matches and names a day of the calendar. */
  function FirstRead(formats: seq<Format>, raw: seq<Byte>): Option<Date>
    decreases |formats|
  {
    if formats == [] then None
    else if Matches(formats[0], raw) && Read(formats[0], raw).Some? then Read(formats[0], raw)
    else FirstRead(formats[1..], raw)
  }

  function IsoText(d: Date): Text
    requires InCalendar(d)
  {
    IsoIsAscii(d);
    AsciiIsText(Write(Iso, d));
    Write(Iso, d)
  }

  lemma {:induction false} AsciiIsText(s: seq<Byte>)
    requires forall i :: 0 <= i < |s| ==> Code(s[i]) < 0x80
    ensures ValidUtf8(s)
    decreases |s|
  {
    if s != [] { AsciiIsText(s[1..]); }
  }

  lemma IsoIsAscii(d: Date)
    requires InCalendar(d)
    ensures forall f, i :: 0 <= i < |Write(f, d)| ==> Code(Write(f, d)[i]) < 0x80
  {
  }

  function ParseDate(value: Option<Text>): Parsed {
    if value.None? then Null
    else
      var raw := Trim(value.value);
      if raw == [] then Null
      else
        var date := FirstRead(FORMATS, raw);
        if date.None? then Invalid(raw) else (FirstReadIsCalendar(FORMATS, raw); Value(IsoText(date.value)))
  }

  lemma {:induction false} FirstReadIsCalendar(formats: seq<Format>, raw: seq<Byte>)
    ensures FirstRead(formats, raw).Some? ==> InCalendar(FirstRead(formats, raw).value)
    decreases |formats|
  {
    if formats != [] { FirstReadIsCalendar(formats[1..], raw); }
  }

  // ----- what is accepted --------------------------------------------------------------------------

  lemma {:induction false} FirstReadIsSome(formats: seq<Format>, raw: seq<Byte>)
    ensures FirstRead(formats, raw).Some? ==>
              exists f :: f in formats && Matches(f, raw) && Read(f, raw) == FirstRead(formats, raw)
    decreases |formats|
  {
    if formats != [] {
      FirstReadIsSome(formats[1..], raw);
      if Matches(formats[0], raw) && Read(formats[0], raw).Some? {
        assert formats[0] in formats;
      } else if FirstRead(formats, raw).Some? {
        var f :| f in formats[1..] && Matches(f, raw) && Read(f, raw) == FirstRead(formats[1..], raw);
        assert f in formats;
      }
    }
  }

  lemma {:induction false} FormIsFound(formats: seq<Format>, f: Format, d: Date)
    requires f in formats && InCalendar(d)
    ensures FirstRead(formats, Write(f, d)) == Some(d)
    decreases |formats|
  {
    var raw := Write(f, d);
    WrittenIsRead(f, d);
    if Matches(formats[0], raw) {
      OneForm(f, formats[0], raw);
    } else {
      FormIsFound(formats[1..], f, d);
    }
  }

  lemma AcceptedIsWritten(value: Text) returns (d: Date, f: Format)
    requires ParseDate(Some(value)).Value?
    ensures InCalendar(d) && Trim(value) == Write(f, d) && ParseDate(Some(value)) == Value(IsoText(d))
  {
    var raw := Trim(value);
    FirstReadIsSome(FORMATS, raw);
    FirstReadIsCalendar(FORMATS, raw);
    f :| f in FORMATS && Matches(f, raw) && Read(f, raw) == FirstRead(FORMATS, raw);
    ReadIsWritten(f, raw);
    d := Read(f, raw).value;
  }

  lemma WrittenIsAccepted(value: Text, d: Date, f: Format)
    requires InCalendar(d) && Trim(value) == Write(f, d)
    ensures ParseDate(Some(value)) == Value(IsoText(d))
  {
    FormIsFound(FORMATS, f, d);
  }

  /** The text is the canonical form of the day that the trimmed value names. */
  ghost predicate Names(raw: seq<Byte>, iso: seq<Byte>, d: Date, f: Format) {
    InCalendar(d) && raw == Write(f, d) && iso == Write(Iso, d)
  }

  /**
   A value is accepted exactly if, trimmed, it is a day of the calendar in one of the
   three forms; the result is that day in the canonical form.
   */
  lemma AcceptedExactly(value: Text, iso: Text)
    ensures ParseDate(Some(value)) == Value(iso) <==> exists d, f :: Names(Trim(value), iso, d, f)
  {
    if ParseDate(Some(value)) == Value(iso) {
      var d, f := AcceptedIsWritten(value);
      assert Names(Trim(value), iso, d, f);
    }
    if d, f :| Names(Trim(value), iso, d, f) {
      WrittenIsAccepted(value, d, f);
    }
  }

  /** Only blank values are null. */
  lemma NullExactly(value: Option<Text>)
    ensures ParseDate(value) == Null <==> value.None? || Trim(value.value) == []
  {
  }

  lemma CanonicalIsTrimmed(f: Format, d: Date)
    requires InCalendar(d)
    ensures LeadingWhite(Write(f, d)) == 0 && TrailingWhite(Write(f, d)) == 0
  {
    var raw := Write(f, d);
    PartsOfWritten(f, d);
    assert Digit(raw[0]) && Digit(raw[|raw| - 1]);
  }

  /** The three forms of a day, with any white space around, all give its canonical form. */
  lemma FormsAgree(d: Date, f: Format, lead: seq<seq<Byte>>, trail: seq<seq<Byte>>, value: Text)
    requires InCalendar(d) && AllWhite(lead) && AllWhite(trail)
    requires value == Flatten(lead) + (Write(f, d) + Flatten(trail))
    ensures ParseDate(Some(value)) == Value(IsoText(d))
  {
    IsoIsAscii(d);
    AsciiIsText(Write(f, d));
    CanonicalIsTrimmed(f, d);
    PaddingIsTrimmed(lead, Write(f, d), trail);
    WrittenIsAccepted(value, d, f);
  }

  /** What the parser returned, it returns again unchanged. */
  lemma ParseDateIsIdempotent(value: Option<Text>)
    ensures ParseDate(value).Value? ==> ParseDate(Some(ParseDate(value).text)) == ParseDate(value)
  {
    if ParseDate(value).Value? {
      var d, f := AcceptedIsWritten(value.value);
      CanonicalIsTrimmed(Iso, d);
      NothingToTrim(IsoText(d));
      WrittenIsAccepted(IsoText(d), d, Iso);
    }
  }

  // ----- the database parameter --------------------------------------------------------------------

  /** Reading the canonical form again, for the statement; anything else is dropped. */
  function DateParam(value: Option<Text>): Option<Date> {
    if value.Some? && Matches(Iso, value.value) then Read(Iso, value.value) else None
  }

  function TextOf(p: Parsed): Option<Text> {
    if p.Value? then Some(p.text) else None
  }

  /** Every day the parser accepted reaches the database, as the day that was written. */
  lemma AcceptedReachesDatabase(value: Text, d: Date, f: Format)
    requires InCalendar(d) && Trim(value) == Write(f, d)
    ensures DateParam(TextOf(ParseDate(Some(value)))) == Some(d)
  {
    WrittenIsAccepted(value, d, f);
    WrittenIsRead(Iso, d);
  }

  /** And a value is null in the database only when it was blank or refused. */
  lemma NeverDropped(value: Option<Text>)
    ensures DateParam(TextOf(ParseDate(value))).None? <==> !ParseDate(value).Value?
  {
    if ParseDate(value).Value? {
      var d, f := AcceptedIsWritten(value.value);
      WrittenIsRead(Iso, d);
    }
  }
}
