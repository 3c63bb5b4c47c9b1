/** The wall-clock reading `datetime.now()` and the three ways the program
    formats it: `%Y%m%d_%H%M%S` for file names, `%d/%m/%Y %H:%M` inside the
    Markdown and HTML documents, and `isoformat()` for `created_at`. The clock
    itself is not modelled: every operation that reads it takes a `DateTime`. */
module Clock {
  import opened Text

  datatype DateTime = DateTime(
    year: int, month: int, day: int,
    hour: int, minute: int, second: int, microsecond: int)

  /** The ranges `datetime` enforces (days are not checked against month length). */
  predicate Valid(t: DateTime) {
    && 1 <= t.year <= 9999
    && 1 <= t.month <= 12
    && 1 <= t.day <= 31
    && 0 <= t.hour < 24
    && 0 <= t.minute < 60
    && 0 <= t.second < 60
    && 0 <= t.microsecond < 1000000
  }

  /** The reading with its sub-second part dropped. */
  function ToSecond(t: DateTime): DateTime {
    t.(microsecond := 0)
  }

  // ---------------------------------------------------------------------------
  // Zero-padded decimal fields
  // ---------------------------------------------------------------------------

  function Pow10(w: nat): nat {
    if w == 0 then 1 else 10 * Pow10(w - 1)
  }

  predicate IsDigit(c: char) {
    '0' <= c <= '9'
  }

  function DigitChar(d: int): char
    requires 0 <= d < 10
  {
    ('0' as int + d) as char
  }

  /** `n` written with exactly `w` decimal digits, zeros in front. */
  function Pad(n: nat, w: nat): (r: string)
    ensures |r| == w
    ensures forall i :: 0 <= i < w ==> IsDigit(r[i])
  {
    if w == 0 then "" else Pad(n / 10, w - 1) + [DigitChar(n % 10)]
  }

  /** The number a string of decimal digits denotes. */
  function DigitsValue(s: string): nat
    requires forall i :: 0 <= i < |s| ==> IsDigit(s[i])
  {
    if |s| == 0 then 0
    else
      assert IsDigit(s[|s| - 1]);
      DigitsValue(s[..|s| - 1]) * 10 + (s[|s| - 1] as int - '0' as int)
  }

  /** Padding loses nothing when the number fits in the width. */
  lemma {:induction false} PadValue(n: nat, w: nat)
    requires n < Pow10(w)
    ensures DigitsValue(Pad(n, w)) == n
  {
    if w > 0 {
      var p := Pad(n, w);
      assert p[..w - 1] == Pad(n / 10, w - 1);
      assert n / 10 < Pow10(w - 1);
      PadValue(n / 10, w - 1);
    }
  }

  lemma PadInjective(a: nat, b: nat, w: nat)
    requires a < Pow10(w) && b < Pow10(w)
    requires Pad(a, w) == Pad(b, w)
    ensures a == b
  {
    PadValue(a, w);
    PadValue(b, w);
  }

  // ---------------------------------------------------------------------------
  // The three formats
  // ---------------------------------------------------------------------------

  /** `strftime("%Y%m%d_%H%M%S")`, the stamp inside default file names. */
  function Stamp(t: DateTime): string
    requires Valid(t)
  {
    Pad(t.year, 4) + Pad(t.month, 2) + Pad(t.day, 2) + "_"
      + Pad(t.hour, 2) + Pad(t.minute, 2) + Pad(t.second, 2)
  }

  /** `strftime("%d/%m/%Y %H:%M")`, the date printed inside documents. */
  function Display(t: DateTime): string
    requires Valid(t)
  {
    Pad(t.day, 2) + "/" + Pad(t.month, 2) + "/" + Pad(t.year, 4) + " "
      + Pad(t.hour, 2) + ":" + Pad(t.minute, 2)
  }

  /** `isoformat()`: the microseconds appear only when they are not zero. */
  function Iso(t: DateTime): string
    requires Valid(t)
  {
    IsoSeconds(t) + (if t.microsecond == 0 then "" else "." + Pad(t.microsecond, 6))
  }

  function IsoSeconds(t: DateTime): string
    requires Valid(t)
  {
    Pad(t.year, 4) + "-" + Pad(t.month, 2) + "-" + Pad(t.day, 2) + "T"
      + Pad(t.hour, 2) + ":" + Pad(t.minute, 2) + ":" + Pad(t.second, 2)
  }

  /** The stamp is eight digits, an underscore and six digits. */
  lemma StampShape(t: DateTime)
    requires Valid(t)
    ensures |Stamp(t)| == 15
    ensures Stamp(t)[8] == '_'
    ensures forall i :: 0 <= i < 15 && i != 8 ==> IsDigit(Stamp(t)[i])
  {
  }

  /** Two readings give the same stamp exactly when they fall in the same
      second: the stamp is how default file names can collide. */
  lemma StampSameSecond(a: DateTime, b: DateTime)
    requires Valid(a) && Valid(b)
    ensures Stamp(a) == Stamp(b) <==> ToSecond(a) == ToSecond(b)
  {
    if Stamp(a) == Stamp(b) {
      var s := Stamp(a);
      assert Pow10(2) == 100 && Pow10(4) == 10000 by {
        assert Pow10(1) == 10;
        assert Pow10(3) == 1000;
      }
      assert s[0..4] == Pad(a.year, 4) == Pad(b.year, 4);
      assert s[4..6] == Pad(a.month, 2) == Pad(b.month, 2);
      assert s[6..8] == Pad(a.day, 2) == Pad(b.day, 2);
      assert s[9..11] == Pad(a.hour, 2) == Pad(b.hour, 2);
      assert s[11..13] == Pad(a.minute, 2) == Pad(b.minute, 2);
      assert s[13..15] == Pad(a.second, 2) == Pad(b.second, 2);
      PadInjective(a.year, b.year, 4);
      PadInjective(a.month, b.month, 2);
      PadInjective(a.day, b.day, 2);
      PadInjective(a.hour, b.hour, 2);
      PadInjective(a.minute, b.minute, 2);
      PadInjective(a.second, b.second, 2);
    }
  }

  /** The printed date holds only digits, `/`, a space and `:`, so it never
      contains a line break or a `<`. */
  lemma DisplayShape(t: DateTime)
    requires Valid(t)
    ensures |Display(t)| == 16
    ensures '\n' !in Display(t) && '<' !in Display(t)
  {
    var d := Display(t);
    assert forall i :: 0 <= i < 16 ==> IsDigit(d[i]) || d[i] in "/ :";
  }

  // ---------------------------------------------------------------------------
  // `isoformat()` sorts chronologically
  // ---------------------------------------------------------------------------

  /** `a` is an earlier reading than `b`: field by field, the first that
      differs is smaller in `a`. */
  predicate Earlier(a: DateTime, b: DateTime) {
    if a.year != b.year then a.year < b.year
    else if a.month != b.month then a.month < b.month
    else if a.day != b.day then a.day < b.day
    else if a.hour != b.hour then a.hour < b.hour
    else if a.minute != b.minute then a.minute < b.minute
    else if a.second != b.second then a.second < b.second
    else a.microsecond < b.microsecond
  }

  /** A common prefix does not change the order. */
  lemma {:induction false} LessCommonPrefix(p: string, y: string, z: string)
    ensures Less(p + y, p + z) == Less(y, z)
    decreases |p|
  {
    if |p| > 0 {
      assert (p + y)[0] == (p + z)[0];
      assert (p + y)[1..] == p[1..] + y && (p + z)[1..] == p[1..] + z;
      LessCommonPrefix(p[1..], y, z);
    } else {
      assert p + y == y && p + z == z;
    }
  }

  /** Strings of equal length that differ decide the order of anything
      appended to them. */
  lemma {:induction false} LessEqualLength(x: string, x2: string, y: string, z: string)
    requires |x| == |x2| && Less(x, x2)
    ensures Less(x + y, x2 + z)
    decreases |x|
  {
    assert (x + y)[0] == x[0] && (x2 + z)[0] == x2[0];
    if x[0] == x2[0] {
      assert (x + y)[1..] == x[1..] + y && (x2 + z)[1..] == x2[1..] + z;
      LessEqualLength(x[1..], x2[1..], y, z);
    }
  }

  /** One field of a formatted reading: a smaller value, or the same value
      and a smaller rest, orders the whole. */
  lemma FieldOrder(x: nat, y: nat, w: nat, rx: string, ry: string)
    requires x < Pow10(w) && y < Pow10(w)
    requires x < y || (x == y && Less(rx, ry))
    ensures Less(Pad(x, w) + rx, Pad(y, w) + ry)
  {
    if x < y {
      PadLess(x, y, w);
      LessEqualLength(Pad(x, w), Pad(y, w), rx, ry);
    } else {
      LessCommonPrefix(Pad(x, w), rx, ry);
    }
  }

  /** Zero padding keeps the numeric order. */
  lemma {:induction false} PadLess(a: nat, b: nat, w: nat)
    requires a < b < Pow10(w)
    ensures Less(Pad(a, w), Pad(b, w))
    decreases w
  {
    var ha, hb := Pad(a / 10, w - 1), Pad(b / 10, w - 1);
    var la, lb := [DigitChar(a % 10)], [DigitChar(b % 10)];
    if a / 10 < b / 10 {
      PadLess(a / 10, b / 10, w - 1);
      LessEqualLength(ha, hb, la, lb);
    } else {
      assert a % 10 < b % 10;
      assert Less(la, lb);
      LessCommonPrefix(ha, la, lb);
    }
  }

  /** The reading to the second, written from the year down as one right-nested
      concatenation. */
  lemma IsoSecondsNested(t: DateTime)
    requires Valid(t)
    ensures IsoSeconds(t) == Pad(t.year, 4) + ("-" + (Pad(t.month, 2) + ("-" + (Pad(t.day, 2)
      + ("T" + (Pad(t.hour, 2) + (":" + (Pad(t.minute, 2) + (":" + Pad(t.second, 2))))))))))
  {
  }

  function SecondsTail(t: DateTime): string
    requires Valid(t)
  {
    Pad(t.minute, 2) + (":" + Pad(t.second, 2))
  }

  lemma TimeOrder(a: DateTime, b: DateTime)
    requires Valid(a) && Valid(b)
    requires a.year == b.year && a.month == b.month && a.day == b.day
    requires ToSecond(a) != ToSecond(b) && Earlier(a, b)
    ensures Less(Pad(a.hour, 2) + (":" + SecondsTail(a)), Pad(b.hour, 2) + (":" + SecondsTail(b)))
  {
    assert Pow10(2) == 100 by { assert Pow10(1) == 10; }
    if a.hour == b.hour {
      if a.minute == b.minute {
        FieldOrder(a.second, b.second, 2, "", "");
        assert Pad(a.second, 2) + "" == Pad(a.second, 2) && Pad(b.second, 2) + "" == Pad(b.second, 2);
        LessCommonPrefix(":", Pad(a.second, 2), Pad(b.second, 2));
      }
      FieldOrder(a.minute, b.minute, 2, ":" + Pad(a.second, 2), ":" + Pad(b.second, 2));
      LessCommonPrefix(":", SecondsTail(a), SecondsTail(b));
    }
    FieldOrder(a.hour, b.hour, 2, ":" + SecondsTail(a), ":" + SecondsTail(b));
  }

  function DayTail(t: DateTime): string
    requires Valid(t)
  {
    Pad(t.day, 2) + ("T" + (Pad(t.hour, 2) + (":" + SecondsTail(t))))
  }

  lemma DateOrder(a: DateTime, b: DateTime)
    requires Valid(a) && Valid(b)
    requires ToSecond(a) != ToSecond(b) && Earlier(a, b)
    ensures Less(Pad(a.year, 4) + ("-" + (Pad(a.month, 2) + ("-" + DayTail(a)))),
                 Pad(b.year, 4) + ("-" + (Pad(b.month, 2) + ("-" + DayTail(b)))))
  {
    assert Pow10(2) == 100 && Pow10(4) == 10000 by {
      assert Pow10(1) == 10;
      assert Pow10(3) == 1000;
    }
    if a.year == b.year {
      if a.month == b.month {
        if a.day == b.day {
          TimeOrder(a, b);
          LessCommonPrefix("T", Pad(a.hour, 2) + (":" + SecondsTail(a)), Pad(b.hour, 2) + (":" + SecondsTail(b)));
        }
        FieldOrder(a.day, b.day, 2, "T" + (Pad(a.hour, 2) + (":" + SecondsTail(a))), "T" + (Pad(b.hour, 2) + (":" + SecondsTail(b))));
        LessCommonPrefix("-", DayTail(a), DayTail(b));
      }
      FieldOrder(a.month, b.month, 2, "-" + DayTail(a), "-" + DayTail(b));
      LessCommonPrefix("-", Pad(a.month, 2) + ("-" + DayTail(a)), Pad(b.month, 2) + ("-" + DayTail(b)));
    }
    FieldOrder(a.year, b.year, 4, "-" + (Pad(a.month, 2) + ("-" + DayTail(a))), "-" + (Pad(b.month, 2) + ("-" + DayTail(b))));
  }

  /** `isoformat()` strings compare as the readings do: an earlier reading
      gives a smaller string, so sorting them descending puts the newest
      first. */
  lemma IsoOrder(a: DateTime, b: DateTime)
    requires Valid(a) && Valid(b) && Earlier(a, b)
    ensures Less(Iso(a), Iso(b))
  {
    var sa := if a.microsecond == 0 then "" else "." + Pad(a.microsecond, 6);
    var sb := if b.microsecond == 0 then "" else "." + Pad(b.microsecond, 6);
    IsoSecondsNested(a);
    IsoSecondsNested(b);
    if ToSecond(a) == ToSecond(b) {
      assert IsoSeconds(a) == IsoSeconds(b);
      assert a.microsecond < b.microsecond;
      if a.microsecond != 0 {
        assert Pow10(6) == 1000000 by {
          assert Pow10(2) == 100;
          assert Pow10(4) == 10000;
        }
        PadLess(a.microsecond, b.microsecond, 6);
        LessCommonPrefix(".", Pad(a.microsecond, 6), Pad(b.microsecond, 6));
      }
      LessCommonPrefix(IsoSeconds(a), sa, sb);
    } else {
      DateOrder(a, b);
      assert |IsoSeconds(a)| == |IsoSeconds(b)|;
      LessEqualLength(IsoSeconds(a), IsoSeconds(b), sa, sb);
    }
  }
}
