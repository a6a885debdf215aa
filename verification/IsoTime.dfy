/**
 Fill times as ISO 8601 text and the cursor built on it. The fill time is stored in UTC without an
 offset, so none is printed.
 */
module IsoTime {
  import opened Common
  import opened Calendar
  import FillPages

  /** The last `width` decimal digits of a number. */
  function Pad(n: int, width: nat): (s: string)
    ensures |s| == width && forall i :: 0 <= i < |s| ==> '0' <= s[i] <= '9'
    decreases width
  {
    if width == 0 then "" else Pad(n / 10, width - 1) + [FillPages.Digit(n % 10)]
  }

  function Pow10(k: nat): nat {
    if k == 0 then 1 else 10 * Pow10(k - 1)
  }

  lemma {:induction false} ParsePad(n: nat, width: nat)
    requires n < Pow10(width)
    ensures FillPages.ParseNat(Pad(n, width)) == n
    decreases width
  {
    if width > 0 {
      ParsePad(n / 10, width - 1);
      assert Pad(n, width)[..width - 1] == Pad(n / 10, width - 1);
    }
  }

  const MICROS_PER_HOUR := 3_600_000_000
  const MICROS_PER_MINUTE := 60_000_000
  const MICROS_PER_SECOND := 1_000_000

  function Micros(h: int, m: int, sec: int): int {
    h * MICROS_PER_HOUR + m * MICROS_PER_MINUTE + sec * MICROS_PER_SECOND
  }

  function Fraction(micros: int): int {
    micros % MICROS_PER_SECOND
  }

  function WholeSeconds(micros: int): int {
    micros - Fraction(micros)
  }

  function DateText(t: Moment): string {
    Pad(t.year, 4) + "-" + Pad(t.month, 2) + "-" + Pad(t.day, 2)
  }

  function ClockText(micros: int): string {
    Pad(micros / MICROS_PER_HOUR, 2) + ":" + Pad(micros / MICROS_PER_MINUTE % 60, 2) + ":"
    + Pad(micros / MICROS_PER_SECOND % 60, 2)
  }

  /** Fractions of a second are printed only when there are any. */
  function FractionText(micros: int): string {
    if Fraction(micros) == 0 then "" else "." + Pad(Fraction(micros), 6)
  }

  function PrintIso(t: Moment): string {
    DateText(t) + "T" + ClockText(t.micros) + FractionText(t.micros)
  }

  /** The number in a field of digits. */
  function Field(s: string): Option<int> {
    if FillPages.IsDigits(s) then Some(FillPages.ParseNat(s)) else None
  }

  function ParseDate(s: string): Option<(int, int, int)> {
    if |s| != 10 || s[4] != '-' || s[7] != '-' then None
    else DateOf(Field(s[..4]), Field(s[5..7]), Field(s[8..]))
  }

  function DateOf(y: Option<int>, m: Option<int>, d: Option<int>): Option<(int, int, int)> {
    if y.None? || m.None? || d.None? then None
    else if y.value < 1 || m.value < 1 || m.value > 12 then None
    else if d.value < 1 || d.value > DaysInMonth(y.value, m.value) then None
    else Some((y.value, m.value, d.value))
  }

  function ParseClock(s: string): Option<int> {
    if |s| != 8 || s[2] != ':' || s[5] != ':' then None
    else ClockOf(Field(s[..2]), Field(s[3..5]), Field(s[6..]))
  }

  function ClockOf(h: Option<int>, m: Option<int>, sec: Option<int>): Option<int> {
    if h.None? || m.None? || sec.None? || h.value >= 24 || m.value >= 60 || sec.value >= 60 then None
    else Some(Micros(h.value, m.value, sec.value))
  }

  function ParseFraction(s: string): Option<int> {
    if s == "" then Some(0) else if |s| != 7 || s[0] != '.' then None else Field(s[1..])
  }

  function ParseIso(s: string): Option<Moment> {
    if |s| < 19 || s[10] != 'T' then None
    else MomentOf(ParseDate(s[..10]), ParseClock(s[11..19]), ParseFraction(s[19..]))
  }

  function MomentOf(date: Option<(int, int, int)>, clock: Option<int>, fraction: Option<int>): Option<Moment> {
    if date.None? || clock.None? || fraction.None? then None
    else Some(Moment(date.value.0, date.value.1, date.value.2, clock.value + fraction.value))
  }

  lemma FieldOfPad(n: nat, width: nat)
    requires 0 < width && n < Pow10(width)
    ensures Field(Pad(n, width)) == Some(n)
  {
    ParsePad(n, width);
  }

  lemma DateRoundTrip(t: Moment)
    requires ValidMoment(t)
    ensures |DateText(t)| == 10 && ParseDate(DateText(t)) == Some((t.year, t.month, t.day))
  {
    assert Pow10(2) == 100 && Pow10(4) == 100 * Pow10(2);
    hide Pad, Field, Pow10, ParseDate;
    FieldOfPad(t.year, 4);
    FieldOfPad(t.month, 2);
    FieldOfPad(t.day, 2);
    ParseDateParts(Pad(t.year, 4), Pad(t.month, 2), Pad(t.day, 2));
  }

  lemma ParseDateParts(y: string, m: string, d: string)
    requires |y| == 4 && |m| == 2 && |d| == 2
    ensures ParseDate(y + "-" + m + "-" + d) == DateOf(Field(y), Field(m), Field(d))
  {
    hide Field, DateOf;
    var s := y + "-" + m + "-" + d;
    assert s[..4] == y && s[5..7] == m && s[8..] == d;
  }

  lemma ClockParts(micros: int)
    requires 0 <= micros < MICROS_PER_DAY
    ensures 0 <= micros / MICROS_PER_HOUR < 24
    ensures Micros(micros / MICROS_PER_HOUR, micros / MICROS_PER_MINUTE % 60, micros / MICROS_PER_SECOND % 60)
            == WholeSeconds(micros)
  {
    var seconds := micros / MICROS_PER_SECOND;
    var minutes := seconds / 60;
    assert micros / MICROS_PER_MINUTE == minutes;
    assert micros / MICROS_PER_HOUR == minutes / 60;
  }

  lemma ClockRoundTrip(micros: int)
    requires 0 <= micros < MICROS_PER_DAY
    ensures |ClockText(micros)| == 8
    ensures ParseClock(ClockText(micros)) == Some(WholeSeconds(micros))
  {
    hide ParseClock, Pad, Micros, WholeSeconds;
    ClockParts(micros);
    ClockFields(micros / MICROS_PER_HOUR, micros / MICROS_PER_MINUTE % 60, micros / MICROS_PER_SECOND % 60);
  }

  lemma ClockFields(h: int, m: int, sec: int)
    requires 0 <= h < 24 && 0 <= m < 60 && 0 <= sec < 60
    ensures ParseClock(Pad(h, 2) + ":" + Pad(m, 2) + ":" + Pad(sec, 2)) == Some(Micros(h, m, sec))
  {
    assert Pow10(2) == 100;
    hide Pad, Field, Pow10, ParseClock, Micros;
    FieldOfPad(h, 2);
    FieldOfPad(m, 2);
    FieldOfPad(sec, 2);
    ParseClockParts(Pad(h, 2), Pad(m, 2), Pad(sec, 2));
  }

  lemma ParseClockParts(a: string, b: string, c: string)
    requires |a| == 2 && |b| == 2 && |c| == 2
    ensures ParseClock(a + ":" + b + ":" + c) == ClockOf(Field(a), Field(b), Field(c))
  {
    hide Field, ClockOf;
    ClockSlices(a, b, c);
  }

  lemma ClockSlices(a: string, b: string, c: string)
    requires |a| == 2 && |b| == 2 && |c| == 2
    ensures var s := a + ":" + b + ":" + c;
            |s| == 8 && s[2] == ':' && s[5] == ':' && s[..2] == a && s[3..5] == b && s[6..] == c
  {
  }

  lemma IsoSlices(d: string, c: string, f: string)
    requires |d| == 10 && |c| == 8
    ensures var s := d + "T" + c + f;
            |s| == 19 + |f| && s[..10] == d && s[10] == 'T' && s[11..19] == c && s[19..] == f
  {
  }

  lemma FractionRoundTrip(micros: int)
    requires 0 <= micros
    ensures ParseFraction(FractionText(micros)) == Some(Fraction(micros))
  {
    var f := Fraction(micros);
    if f != 0 {
      assert Pow10(2) == 100 && Pow10(4) == 100 * Pow10(2) && Pow10(6) == 100 * Pow10(4);
      FieldOfPad(f, 6);
      assert FractionText(micros)[1..] == Pad(f, 6);
    }
  }

  lemma ParseIsoParts(d: string, c: string, f: string)
    requires |d| == 10 && |c| == 8
    ensures ParseIso(d + "T" + c + f) == MomentOf(ParseDate(d), ParseClock(c), ParseFraction(f))
  {
    hide ParseDate, ParseClock, ParseFraction, MomentOf;
    IsoSlices(d, c, f);
  }

  lemma MomentWhole(t: Moment)
    ensures MomentOf(Some((t.year, t.month, t.day)), Some(WholeSeconds(t.micros)), Some(Fraction(t.micros))) == Some(t)
  {
  }

  lemma PartsRead(t: Moment)
    requires ValidMoment(t)
    ensures |DateText(t)| == 10 && |ClockText(t.micros)| == 8
    ensures MomentOf(ParseDate(DateText(t)), ParseClock(ClockText(t.micros)), ParseFraction(FractionText(t.micros)))
            == Some(t)
  {
    assert 0 <= t.micros < MICROS_PER_DAY;
    hide DateText, ClockText, FractionText, ParseDate, ParseClock, ParseFraction, MomentOf, ValidMoment,
         WholeSeconds, Fraction;
    DateRoundTrip(t);
    ClockRoundTrip(t.micros);
    FractionRoundTrip(t.micros);
    MomentWhole(t);
  }

  /** Reading a printed time gives the instant back. */
  lemma IsoRoundTrip(t: Moment)
    requires ValidMoment(t)
    ensures ParseIso(PrintIso(t)) == Some(t)
  {
    hide DateText, ClockText, FractionText, ParseDate, ParseClock, ParseFraction, ValidMoment, MomentOf, ParseIso;
    PartsRead(t);
    ParseIsoParts(DateText(t), ClockText(t.micros), FractionText(t.micros));
  }

  /** The blotter's cursor decodes to the fill time and identifier it was printed from. */
  lemma FillCursorRoundTrip(t: Moment, id: nat)
    requires ValidMoment(t)
    ensures FillPages.ParseCursor(Some(FillPages.PrintCursor(t, id, PrintIso)), ParseIso) == FillPages.Parsed(t, id)
  {
    IsoRoundTrip(t);
    FillPages.ParseInvertsPrint(t, id, PrintIso, ParseIso);
  }

  /** Different fill times are different instants, in the order of their dates and clocks. */
  lemma InstantsDistinct(t: Moment, u: Moment)
    requires ValidMoment(t) && ValidMoment(u) && Instant(t) == Instant(u)
    ensures t == u
  {
    hide FirstOfMonth;
    if Months(t.year, t.month) < Months(u.year, u.month) {
      LaterMonth(t.year, t.month, u.year, u.month);
    } else if Months(u.year, u.month) < Months(t.year, t.month) {
      LaterMonth(u.year, u.month, t.year, t.month);
    }
  }

  /** A page's printed cursor leads back to the position it was printed for, and to no other. */
  lemma PrintedCursorIsPosition(t: Moment, f: FillPages.Fill)
    requires ValidMoment(t) && f.ts == Instant(t)
    ensures var p := FillPages.ParseCursor(Some(FillPages.PrintCursor(t, f.id, PrintIso)), ParseIso);
            p.Parsed? && FillPages.Cursor(Instant(p.moment), p.id) == FillPages.CursorOf(f)
    ensures forall u: Moment, id: nat :: ValidMoment(u) && (u, id) != (t, f.id) ==>
              FillPages.PrintCursor(u, id, PrintIso) != FillPages.PrintCursor(t, f.id, PrintIso)
              && FillPages.Cursor(Instant(u), id) != FillPages.CursorOf(f)
  {
    FillCursorRoundTrip(t, f.id);
    forall u: Moment, id: nat | ValidMoment(u) && (u, id) != (t, f.id)
      ensures FillPages.PrintCursor(u, id, PrintIso) != FillPages.PrintCursor(t, f.id, PrintIso)
              && FillPages.Cursor(Instant(u), id) != FillPages.CursorOf(f)
    {
      FillCursorRoundTrip(u, id);
      if Instant(u) == Instant(t) { InstantsDistinct(u, t); }
    }
  }

  /** The shape of a printed time: year, month and day by dashes, hour, minute and second by colons. */
  lemma PrintedShape(t: Moment, h: int, m: int, sec: int, frac: int)
    requires ValidMoment(t) && 0 <= h < 24 && 0 <= m < 60 && 0 <= sec < 60 && 0 <= frac < 1_000_000
    requires t.micros == ((h * 60 + m) * 60 + sec) * 1_000_000 + frac
    ensures PrintIso(t)
            == (Pad(t.year, 4) + "-" + Pad(t.month, 2) + "-" + Pad(t.day, 2)) + "T"
               + (Pad(h, 2) + ":" + Pad(m, 2) + ":" + Pad(sec, 2)) + (if frac == 0 then "" else "." + Pad(frac, 6))
  {
    Units(t.micros, h, m, sec, frac);
    hide Pad;
  }

  lemma Units(micros: int, h: int, m: int, sec: int, frac: int)
    requires 0 <= h < 24 && 0 <= m < 60 && 0 <= sec < 60 && 0 <= frac < 1_000_000
    requires micros == ((h * 60 + m) * 60 + sec) * 1_000_000 + frac
    ensures micros / MICROS_PER_HOUR == h && micros / MICROS_PER_MINUTE % 60 == m
    ensures micros / MICROS_PER_SECOND % 60 == sec && micros % MICROS_PER_SECOND == frac
  {
    assert micros / MICROS_PER_SECOND == (h * 60 + m) * 60 + sec;
    assert micros / MICROS_PER_MINUTE == h * 60 + m;
  }

  // ---------------------------------------------------------------- what is read

  lemma ParseStep(s: string) returns (d: nat)
    requires s != "" && forall i :: 0 <= i < |s| ==> '0' <= s[i] <= '9'
    ensures d < 10 && FillPages.Digit(d) == s[|s| - 1]
    ensures FillPages.ParseNat(s) == FillPages.ParseNat(s[..|s| - 1]) * 10 + d
  {
    d := (s[|s| - 1] - '0') as nat;
    DigitOf(s[|s| - 1]);
  }

  lemma {:induction false} PadParse(s: string)
    requires forall i :: 0 <= i < |s| ==> '0' <= s[i] <= '9'
    ensures Pad(FillPages.ParseNat(s), |s|) == s && FillPages.ParseNat(s) < Pow10(|s|)
    decreases |s|
  {
    if s != "" {
      var n := |s| - 1;
      hide FillPages.ParseNat, FillPages.Digit, Pad;
      PadParse(s[..n]);
      var d := ParseStep(s);
      PadSnoc(FillPages.ParseNat(s[..n]), d, n);
      assert s == s[..n] + [s[n]];
    }
  }

  lemma PadSnoc(v: nat, d: nat, n: nat)
    requires d < 10
    ensures Pad(v * 10 + d, n + 1) == Pad(v, n) + [FillPages.Digit(d)]
  {
    Tens(v, d);
    hide FillPages.Digit;
  }

  lemma Tens(v: nat, d: nat)
    requires d < 10
    ensures (v * 10 + d) / 10 == v && (v * 10 + d) % 10 == d
  {
  }

  lemma DigitOf(c: char)
    requires '0' <= c <= '9'
    ensures (c - '0') as nat < 10 && FillPages.Digit((c - '0') as nat) == c
  {
  }

  lemma FieldIsPad(s: string)
    ensures Field(s).Some? ==> s == Pad(Field(s).value, |s|) && 0 <= Field(s).value < Pow10(|s|)
  {
    if Field(s).Some? { PadParse(s); }
  }

  lemma DateIsText(s: string)
    requires ParseDate(s).Some?
    ensures var (y, m, d) := ParseDate(s).value;
            && s == Pad(y, 4) + "-" + Pad(m, 2) + "-" + Pad(d, 2)
            && 1 <= y <= 9999 && 1 <= m <= 12 && 1 <= d <= DaysInMonth(y, m)
  {
    assert Pow10(2) == 100 && Pow10(4) == 100 * Pow10(2);
    FieldIsPad(s[..4]);
    FieldIsPad(s[5..7]);
    FieldIsPad(s[8..]);
    hide Pad, Field, Pow10, DaysInMonth;
    assert s == s[..4] + "-" + s[5..7] + "-" + s[8..];
  }

  lemma MicrosIs(h: int, m: int, sec: int)
    ensures Micros(h, m, sec) == ((h * 60 + m) * 60 + sec) * 1_000_000
  {
  }

  lemma ClockTextParts(micros: int, h: int, m: int, sec: int)
    requires micros / MICROS_PER_HOUR == h && micros / MICROS_PER_MINUTE % 60 == m
    requires micros / MICROS_PER_SECOND % 60 == sec
    ensures ClockText(micros) == Pad(h, 2) + ":" + Pad(m, 2) + ":" + Pad(sec, 2)
  {
    hide Pad;
  }

  lemma ClockTextOf(h: int, m: int, sec: int, frac: int)
    requires 0 <= h < 24 && 0 <= m < 60 && 0 <= sec < 60 && 0 <= frac < 1_000_000
    ensures var micros := Micros(h, m, sec) + frac;
            && ClockText(micros) == Pad(h, 2) + ":" + Pad(m, 2) + ":" + Pad(sec, 2)
            && 0 <= micros < MICROS_PER_DAY && Fraction(micros) == frac
  {
    hide Pad, Micros, ClockText;
    MicrosIs(h, m, sec);
    var micros := Micros(h, m, sec) + frac;
    Units(micros, h, m, sec, frac);
    ClockTextParts(micros, h, m, sec);
  }

  lemma ClockIsText(s: string, frac: int)
    requires ParseClock(s).Some? && 0 <= frac < 1_000_000
    ensures var micros := ParseClock(s).value + frac;
            s == ClockText(micros) && 0 <= micros < MICROS_PER_DAY && Fraction(micros) == frac
  {
    hide Pad, Field, Pow10, Fraction, ClockText, Micros;
    var h, m, sec := Field(s[..2]), Field(s[3..5]), Field(s[6..]);
    assert h.Some? && m.Some? && sec.Some?;
    FieldIsPad(s[..2]);
    FieldIsPad(s[3..5]);
    FieldIsPad(s[6..]);
    ClockJoins(s);
    ClockTextOf(h.value, m.value, sec.value, frac);
  }

  lemma ClockJoins(s: string)
    requires |s| == 8 && s[2] == ':' && s[5] == ':'
    ensures s == s[..2] + ":" + s[3..5] + ":" + s[6..]
  {
  }

  lemma IsoJoins(s: string)
    requires |s| >= 19 && s[10] == 'T'
    ensures s == s[..10] + "T" + s[11..19] + s[19..]
  {
  }

  lemma SuffixMoves(d: string, c: string, f: string, rest: string)
    ensures d + "T" + c + (f + rest) == d + "T" + c + f + rest
  {
  }

  lemma FractionIsText(s: string)
    requires ParseFraction(s).Some?
    ensures 0 <= ParseFraction(s).value < 1_000_000
    ensures s == "" || s == "." + Pad(ParseFraction(s).value, 6)
    ensures s == "" ==> ParseFraction(s).value == 0
  {
    assert Pow10(2) == 100 && Pow10(4) == 100 * Pow10(2) && Pow10(6) == 100 * Pow10(4);
    if s != "" {
      FieldIsPad(s[1..]);
      assert s == "." + s[1..];
    }
  }

  lemma ZeroPads()
    ensures Pad(0, 6) == "000000"
  {
    assert Pad(0, 2) == "00";
    assert Pad(0, 4) == Pad(0, 2) + "0" + "0";
  }

  lemma FractionPrinted(frac: int, micros: int, s: string)
    requires Fraction(micros) == frac
    requires s == "" || s == "." + Pad(frac, 6)
    requires s == "" ==> frac == 0
    ensures s == FractionText(micros) || s == FractionText(micros) + ".000000"
  {
    if frac == 0 { ZeroPads(); }
    hide Pad;
    if frac == 0 { assert FractionText(micros) + ".000000" == ".000000"; }
  }

  lemma PartsArePrinted(d: string, c: string, f: string, t: Moment)
    requires MomentOf(ParseDate(d), ParseClock(c), ParseFraction(f)) == Some(t)
    ensures ValidMoment(t) && d == DateText(t) && c == ClockText(t.micros)
    ensures f == FractionText(t.micros) || f == FractionText(t.micros) + ".000000"
  {
    hide ParseDate, ParseClock, ParseFraction, ClockText, FractionText, Pad, Fraction, DaysInMonth;
    DateIsText(d);
    FractionIsText(f);
    ClockIsText(c, ParseFraction(f).value);
    FractionPrinted(ParseFraction(f).value, t.micros, f);
  }

  /** Every text read as a time is the one printed for it, except that a zero fraction may be spelled out. */
  lemma ReadTimeIsPrinted(s: string, t: Moment)
    requires ParseIso(s) == Some(t)
    ensures ValidMoment(t) && (s == PrintIso(t) || s == PrintIso(t) + ".000000")
  {
    hide MomentOf, ParseDate, ParseClock, ParseFraction, DateText, ClockText, FractionText, ValidMoment;
    PartsArePrinted(s[..10], s[11..19], s[19..], t);
    hide ParseIso;
    IsoJoins(s);
    SuffixMoves(s[..10], s[11..19], FractionText(t.micros), ".000000");
  }
}
