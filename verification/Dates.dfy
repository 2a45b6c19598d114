/** Calendar dates in their two spellings: ISO (full-date of section 5.6 of RFC 3339)
    and dotted day.month.year. Digits are the ASCII ones. */
module Dates {
  import opened Schemas
  import opened Text

  predicate Leap(year: nat) {
    year % 4 == 0 && (year % 100 != 0 || year % 400 == 0)
  }

  function DaysIn(year: nat, month: nat): nat {
    if month == 2 then (if Leap(year) then 29 else 28)
    else if month == 4 || month == 6 || month == 9 || month == 11 then 30
    else 31
  }

  /** What `datetime.date(y, m, d)` accepts. */
  predicate Valid(d: Date) {
    && 1 <= d.year <= 9999
    && 1 <= d.month <= 12
    && 1 <= d.day <= DaysIn(d.year, d.month)
  }

  predicate Before(a: Date, b: Date) {
    || a.year < b.year
    || (a.year == b.year && a.month < b.month)
    || (a.year == b.year && a.month == b.month && a.day < b.day)
  }

  predicate IsDigit(c: char) {
    '0' <= c <= '9'
  }

  function DigitValue(c: char): (n: nat)
    requires IsDigit(c)
    ensures n < 10
  {
    c as int - '0' as int
  }

  function DigitOf(n: nat): (c: char)
    requires n < 10
    ensures IsDigit(c) && DigitValue(c) == n
  {
    ('0' as int + n) as char
  }

  predicate AllDigits(s: string) {
    forall i | 0 <= i < |s| :: IsDigit(s[i])
  }

  function Number(s: string): nat
    requires AllDigits(s)
  {
    if s == "" then 0 else 10 * Number(s[..|s| - 1]) + DigitValue(s[|s| - 1])
  }

  /** `n` in decimal, zero-padded to `width` digits. */
  function Padded(n: nat, width: nat): (s: string)
    ensures |s| == width && AllDigits(s)
  {
    if width == 0 then "" else Padded(n / 10, width - 1) + [DigitOf(n % 10)]
  }

  function Power10(width: nat): (p: nat)
    ensures p > 0
  {
    if width == 0 then 1 else 10 * Power10(width - 1)
  }

  lemma {:induction false} PaddedNumber(n: nat, width: nat)
    requires n < Power10(width)
    ensures Number(Padded(n, width)) == n
  {
    if width > 0 {
      PaddedNumber(n / 10, width - 1);
      var s := Padded(n, width);
      assert s[..width - 1] == Padded(n / 10, width - 1);
      assert s[width - 1] == DigitOf(n % 10);
    }
  }

  function Iso(d: Date): string {
    Padded(d.year, 4) + "-" + Padded(d.month, 2) + "-" + Padded(d.day, 2)
  }

  function Dotted(d: Date): string {
    Padded(d.day, 2) + "." + Padded(d.month, 2) + "." + Padded(d.year, 4)
  }

  predicate LooksIso(s: string) {
    |s| == 10 && s[4] == '-' && s[7] == '-' && AllDigits(s[..4]) && AllDigits(s[5..7]) && AllDigits(s[8..])
  }

  predicate LooksDotted(s: string) {
    |s| == 10 && s[2] == '.' && s[5] == '.' && AllDigits(s[..2]) && AllDigits(s[3..5]) && AllDigits(s[6..])
  }

  /** The date a string in one of the two layouts spells, possible or not. */
  function Spelled(s: string): Option<Date> {
    if LooksIso(s) then Some(Date(Number(s[..4]), Number(s[5..7]), Number(s[8..])))
    else if LooksDotted(s) then Some(Date(Number(s[6..]), Number(s[3..5]), Number(s[..2])))
    else None
  }

  /** `_parse_date`: either layout, stripped, printed in ISO; nothing for an impossible date. */
  function ParseDate(lib: Library, raw: string): Option<string> {
    var d := Spelled(Strip(lib, raw));
    if d.Some? && Valid(d.value) then Some(Iso(d.value)) else None
  }

  lemma SpelledIso(d: Date)
    requires d.year < 10000 && d.month < 100 && d.day < 100
    ensures Spelled(Iso(d)) == Some(d)
  {
    var s := Iso(d);
    assert s[..4] == Padded(d.year, 4);
    assert s[5..7] == Padded(d.month, 2);
    assert s[8..] == Padded(d.day, 2);
    assert Power10(4) == 10 * (10 * Power10(2)) && Power10(2) == 100;
    PaddedNumber(d.year, 4);
    PaddedNumber(d.month, 2);
    PaddedNumber(d.day, 2);
  }

  lemma SpelledDotted(d: Date)
    requires d.year < 10000 && d.month < 100 && d.day < 100
    ensures Spelled(Dotted(d)) == Some(d)
  {
    var s := Dotted(d);
    assert s[..2] == Padded(d.day, 2);
    assert s[3..5] == Padded(d.month, 2);
    assert s[6..] == Padded(d.year, 4);
    assert Power10(4) == 10 * (10 * Power10(2)) && Power10(2) == 100;
    PaddedNumber(d.year, 4);
    PaddedNumber(d.month, 2);
    PaddedNumber(d.day, 2);
    assert s[..4][2] == '.';
  }

  /** Digits and the two separators are neither whitespace nor changed by case folding. */
  ghost predicate DateCharsPlain(lib: Library) {
    forall c: char :: IsDigit(c) || c == '-' || c == '.' ==> !lib.space(c) && lib.fold(c) == [c]
  }

  lemma DatesArePlain(lib: Library, d: Date)
    requires DateCharsPlain(lib)
    ensures Plain(lib, Iso(d)) && Plain(lib, Dotted(d))
  {
  }

  /** Both spellings of every valid date of the years 1 to 9999 parse to the same ISO
      string, which parses to itself. */
  lemma DateRoundTrip(lib: Library, d: Date)
    requires DateCharsPlain(lib) && Valid(d)
    ensures ParseDate(lib, Iso(d)) == Some(Iso(d))
    ensures ParseDate(lib, Dotted(d)) == Some(Iso(d))
  {
    DatesArePlain(lib, d);
    PlainStrip(lib, Iso(d));
    PlainStrip(lib, Dotted(d));
    SpelledIso(d);
    SpelledDotted(d);
  }

  /** Distinct dates have distinct ISO strings. */
  lemma IsoInjective(a: Date, b: Date)
    requires Valid(a) && Valid(b) && Iso(a) == Iso(b)
    ensures a == b
  {
    SpelledIso(a);
    SpelledIso(b);
  }

  /** Parsing is idempotent, and whatever it returns is the ISO spelling of the one valid
      date the stripped text spells in one of the two layouts; any other text, in
      particular an impossible date, is rejected. */
  lemma ParseDateExact(lib: Library, raw: string)
    requires DateCharsPlain(lib)
    ensures forall s :: ParseDate(lib, raw) == Some(s) ==>
              ParseDate(lib, s) == Some(s)
              && exists d :: Valid(d) && s == Iso(d)
                   && (Strip(lib, raw) == Iso(d) || Strip(lib, raw) == Dotted(d))
    ensures ParseDate(lib, raw).None? ==>
              forall d :: Valid(d) ==> Strip(lib, raw) != Iso(d) && Strip(lib, raw) != Dotted(d)
  {
    var t := Strip(lib, raw);
    if ParseDate(lib, raw).Some? {
      var d := Spelled(t).value;
      DateRoundTrip(lib, d);
      if LooksIso(t) { IsoLayout(t, d); } else { DottedLayout(t, d); }
    } else {
      forall d | Valid(d)
        ensures t != Iso(d) && t != Dotted(d)
      {
        SpelledIso(d);
        SpelledDotted(d);
      }
    }
  }

  lemma {:induction false} NumberPadded(s: string)
    requires AllDigits(s)
    ensures Padded(Number(s), |s|) == s
  {
    if s != "" {
      NumberPadded(s[..|s| - 1]);
      assert s == s[..|s| - 1] + [s[|s| - 1]];
    }
  }

  lemma IsoLayout(s: string, d: Date)
    requires LooksIso(s) && Spelled(s) == Some(d)
    ensures s == Iso(d)
  {
    NumberPadded(s[..4]);
    NumberPadded(s[5..7]);
    NumberPadded(s[8..]);
    assert s == s[..4] + [s[4]] + s[5..7] + [s[7]] + s[8..];
  }

  lemma DottedLayout(s: string, d: Date)
    requires !LooksIso(s) && LooksDotted(s) && Spelled(s) == Some(d)
    ensures s == Dotted(d)
  {
    NumberPadded(s[..2]);
    NumberPadded(s[3..5]);
    NumberPadded(s[6..]);
    assert s == s[..2] + [s[2]] + s[3..5] + [s[5]] + s[6..];
  }

  // --- the calendar and the spellings, written out ---

  /** The months have 31 or 30 days, and February 28, or 29 in a leap year. */
  lemma ValidExact(d: Date)
    ensures Valid(d) <==>
              && 1 <= d.year <= 9999 && 1 <= d.month <= 12 && 1 <= d.day <= 31
              && (d.month in {4, 6, 9, 11} ==> d.day <= 30)
              && (d.month == 2 ==> d.day <= 29)
              && (d.month == 2 && d.day == 29 ==> d.year % 400 == 0 || (d.year % 4 == 0 && d.year % 100 != 0))
  {
  }

  function Two(a: char, b: char): int {
    10 * (a as int - '0' as int) + (b as int - '0' as int)
  }

  lemma PaddedTwo(n: nat)
    requires n < 100
    ensures var s := Padded(n, 2); Two(s[0], s[1]) == n
  {
    assert Padded(n, 2) == Padded(n / 10, 1) + [DigitOf(n % 10)];
    assert Padded(n / 10, 1) == Padded(n / 10 / 10, 0) + [DigitOf(n / 10 % 10)];
  }

  lemma PaddedFour(n: nat)
    requires n < 10000
    ensures var s := Padded(n, 4); 100 * Two(s[0], s[1]) + Two(s[2], s[3]) == n
  {
    PaddedTwo(n / 100);
    assert Padded(n, 4) == Padded(n / 10, 3) + [DigitOf(n % 10)];
    assert Padded(n / 10, 3) == Padded(n / 10 / 10, 2) + [DigitOf(n / 10 % 10)];
    assert n / 10 / 10 == n / 100;
  }

  /** `YYYY-MM-DD` and `DD.MM.YYYY`. */
  lemma SpellingsExact(d: Date)
    requires Valid(d)
    ensures var s := Iso(d);
            && |s| == 10 && s[4] == '-' && s[7] == '-'
            && 100 * Two(s[0], s[1]) + Two(s[2], s[3]) == d.year && Two(s[5], s[6]) == d.month && Two(s[8], s[9]) == d.day
    ensures var s := Dotted(d);
            && |s| == 10 && s[2] == '.' && s[5] == '.'
            && Two(s[0], s[1]) == d.day && Two(s[3], s[4]) == d.month && 100 * Two(s[6], s[7]) + Two(s[8], s[9]) == d.year
  {
    PaddedFour(d.year);
    PaddedTwo(d.month);
    PaddedTwo(d.day);
  }
}
