/** Calendar dates and clock times as the pages write them (`yyyy-MM-dd`,
    `HH:mm`), and the fact the whole application leans on: for these
    fixed-width forms, text order is time order. */
module Clock {
  import opened Strings

  /** A calendar date; `month` and `day` count from 1. */
  datatype Date = Date(year: int, month: int, day: int)

  predicate InRange(d: Date) {
    0 <= d.year < 10000 && 1 <= d.month <= 12 && 1 <= d.day <= 31
  }

  /** Chronological order. */
  predicate Before(a: Date, b: Date) {
    a.year < b.year
    || (a.year == b.year && (a.month < b.month || (a.month == b.month && a.day < b.day)))
  }

  /** `format(date, "yyyy-MM-dd")`. */
  function IsoDate(d: Date): string {
    ZeroPad(d.year, 4) + "-" + ZeroPad(d.month, 2) + "-" + ZeroPad(d.day, 2)
  }

  /** `HH:mm` with both parts zero-padded. */
  function HourMinute(h: int, m: int): string {
    ZeroPad(h, 2) + ":" + ZeroPad(m, 2)
  }

  /** `a + [c] + b` with `a` of a known width, compared against the same
      shape: the heads decide unless equal, then the tails. */
  lemma JoinedOrder(a1: string, a2: string, c: char, b1: string, b2: string)
    requires |a1| == |a2|
    ensures StrLess(a1 + [c] + b1, a2 + [c] + b2) <==> StrLess(a1, a2) || (a1 == a2 && StrLess(b1, b2))
  {
    assert a1 + [c] + b1 == a1 + ([c] + b1);
    assert a2 + [c] + b2 == a2 + ([c] + b2);
    StrLessConcat(a1, a2, [c] + b1, [c] + b2);
    StrLessConcat([c], [c], b1, b2);
    StrLessIrreflexive([c]);
  }

  lemma JoinedEqual(a1: string, a2: string, c: char, b1: string, b2: string)
    requires |a1| == |a2|
    ensures a1 + [c] + b1 == a2 + [c] + b2 <==> a1 == a2 && b1 == b2
  {
    if a1 + [c] + b1 == a2 + [c] + b2 {
      assert (a1 + [c] + b1)[..|a1|] == a1;
      assert (a2 + [c] + b2)[..|a2|] == a2;
      assert (a1 + [c] + b1)[|a1| + 1..] == b1;
      assert (a2 + [c] + b2)[|a2| + 1..] == b2;
    }
  }

  /** Text order and equality of `a + [c] + b` shapes, given how the parts
      compare. */
  lemma PartsDecide(a1: string, a2: string, c: char, b1: string, b2: string, lessA: bool, lessB: bool, eqA: bool, eqB: bool)
    requires |a1| == |a2|
    requires StrLess(a1, a2) == lessA && StrLess(b1, b2) == lessB
    requires (a1 == a2) == eqA && (b1 == b2) == eqB
    ensures StrLess(a1 + [c] + b1, a2 + [c] + b2) <==> lessA || (eqA && lessB)
    ensures a1 + [c] + b1 == a2 + [c] + b2 <==> eqA && eqB
  {
    JoinedOrder(a1, a2, c, b1, b2);
    JoinedEqual(a1, a2, c, b1, b2);
  }

  lemma PowersOfTen()
    ensures Pow10(2) == 100 && Pow10(4) == 10000
  {
    assert Pow10(1) == 10;
    assert Pow10(3) == 1000;
  }

  lemma Regroup(x: string, c: char, y: string, z: string)
    ensures x + [c] + y + [c] + z == x + [c] + (y + [c] + z)
  {
  }

  lemma IsoDateParts(d: Date)
    ensures IsoDate(d) == ZeroPad(d.year, 4) + ['-'] + (ZeroPad(d.month, 2) + ['-'] + ZeroPad(d.day, 2))
  {
    Regroup(ZeroPad(d.year, 4), '-', ZeroPad(d.month, 2), ZeroPad(d.day, 2));
  }

  /** The dashed shape of three digit groups of widths 4, 2 and 2. */
  predicate DashedDate(t: string) {
    |t| == 10 && t[4] == '-' && t[7] == '-' && AllDigits(t[..4]) && AllDigits(t[5..7]) && AllDigits(t[8..])
  }

  lemma JoinedShape(y: string, m: string, dd: string)
    requires |y| == 4 && |m| == 2 && |dd| == 2 && AllDigits(y) && AllDigits(m) && AllDigits(dd)
    ensures DashedDate(y + ['-'] + (m + ['-'] + dd))
  {
    var t := y + ['-'] + (m + ['-'] + dd);
    assert t[..4] == y;
    assert t[5..7] == m;
    assert t[8..] == dd;
  }

  /** A date in range is written as ten characters: four digits, a dash, two
      digits, a dash, two digits. */
  lemma IsoDateShape(d: Date)
    requires InRange(d)
    ensures DashedDate(IsoDate(d))
  {
    PowersOfTen();
    ZeroPadFacts(d.year, 4);
    ZeroPadFacts(d.month, 2);
    ZeroPadFacts(d.day, 2);
    IsoDateParts(d);
    JoinedShape(ZeroPad(d.year, 4), ZeroPad(d.month, 2), ZeroPad(d.day, 2));
  }

  /** Two dates compare as `yyyy-MM-dd` text exactly as they compare in time,
      and equal text means the same date. */
  lemma IsoDateOrder(a: Date, b: Date)
    requires InRange(a) && InRange(b)
    ensures StrLess(IsoDate(a), IsoDate(b)) <==> Before(a, b)
    ensures IsoDate(a) == IsoDate(b) <==> a == b
  {
    PowersOfTen();
    var ya, yb := ZeroPad(a.year, 4), ZeroPad(b.year, 4);
    var ma, mb := ZeroPad(a.month, 2), ZeroPad(b.month, 2);
    var da, db := ZeroPad(a.day, 2), ZeroPad(b.day, 2);
    ZeroPadOrder(a.year, b.year, 4);
    ZeroPadOrder(a.month, b.month, 2);
    ZeroPadOrder(a.day, b.day, 2);
    ZeroPadFacts(a.year, 4);
    ZeroPadFacts(b.year, 4);
    ZeroPadFacts(a.month, 2);
    ZeroPadFacts(b.month, 2);
    PartsDecide(ma, mb, '-', da, db, a.month < b.month, a.day < b.day, a.month == b.month, a.day == b.day);
    var ta, tb := ma + ['-'] + da, mb + ['-'] + db;
    PartsDecide(ya, yb, '-', ta, tb, a.year < b.year, a.month < b.month || (a.month == b.month && a.day < b.day),
      a.year == b.year, a.month == b.month && a.day == b.day);
    IsoDateParts(a);
    IsoDateParts(b);
  }

  /** Likewise for `HH:mm` times. */
  lemma HourMinuteOrder(h1: int, m1: int, h2: int, m2: int)
    requires 0 <= h1 < 100 && 0 <= m1 < 100 && 0 <= h2 < 100 && 0 <= m2 < 100
    ensures StrLess(HourMinute(h1, m1), HourMinute(h2, m2)) <==> h1 < h2 || (h1 == h2 && m1 < m2)
    ensures HourMinute(h1, m1) == HourMinute(h2, m2) <==> h1 == h2 && m1 == m2
  {
    PowersOfTen();
    ZeroPadOrder(h1, h2, 2);
    ZeroPadOrder(m1, m2, 2);
    ZeroPadFacts(h1, 2);
    ZeroPadFacts(h2, 2);
    PartsDecide(ZeroPad(h1, 2), ZeroPad(h2, 2), ':', ZeroPad(m1, 2), ZeroPad(m2, 2), h1 < h2, m1 < m2, h1 == h2, m1 == m2);
    assert HourMinute(h1, m1) == ZeroPad(h1, 2) + [':'] + ZeroPad(m1, 2);
    assert HourMinute(h2, m2) == ZeroPad(h2, 2) + [':'] + ZeroPad(m2, 2);
  }
}
