/** The time select: the `HH:mm` options it offers, either the list it is
    given or one generated from a start hour, an end hour and an interval. */
module TimePicker {
  import opened Common
  import opened Strings
  import opened Clock

  /** The minutes offered within each hour: an interval of 30 gives two
      options, 15 gives four, and any other interval only the full hour. */
  function Minutes(interval: int): (r: seq<int>)
    ensures |r| >= 1 && r[0] == 0
    ensures forall k :: 0 <= k < |r| ==> 0 <= r[k] < 60
    ensures forall i, j :: 0 <= i < j < |r| ==> r[i] < r[j]
  {
    if interval == 30 then [0, 30]
    else if interval == 15 then [0, 15, 30, 45]
    else [0]
  }

  /** The (hour, minute) pairs of one hour, in minute order. */
  function HourTimes(h: int, interval: int): (r: seq<(int, int)>)
    ensures |r| == |Minutes(interval)|
    ensures forall k :: 0 <= k < |r| ==> r[k] == (h, Minutes(interval)[k])
  {
    var ms := Minutes(interval);
    seq(|ms|, k requires 0 <= k < |ms| => (h, ms[k]))
  }

  /** The (hour, minute) pairs for the hours `start` up to but excluding
      `end`: every hour in the range with every minute the interval offers. */
  function Times(start: int, end: int, interval: int): seq<(int, int)>
    decreases end - start
  {
    if start >= end then [] else HourTimes(start, interval) + Times(start + 1, end, interval)
  }

  /** Every hour in the range with every minute the interval offers, and
      nothing else. */
  lemma {:induction false} TimesMembers(start: int, end: int, interval: int)
    ensures forall p :: p in Times(start, end, interval) <==> start <= p.0 < end && p.1 in Minutes(interval)
    decreases end - start
  {
    if start < end {
      TimesMembers(start + 1, end, interval);
      var a, b := HourTimes(start, interval), Times(start + 1, end, interval);
      assert Times(start, end, interval) == a + b;
      assert forall p :: p in a <==> p.0 == start && p.1 in Minutes(interval);
    }
  }

  /** There are as many pairs as hours times options per hour. */
  lemma {:induction false} TimesLength(start: int, end: int, interval: int)
    ensures |Times(start, end, interval)| == (if start < end then end - start else 0) * |Minutes(interval)|
    decreases end - start
  {
    if start < end {
      TimesLength(start + 1, end, interval);
      var n := |Minutes(interval)|;
      assert (end - start) * n == n + (end - (start + 1)) * n;
    }
  }

  /** Earlier in the day: by hour, then by minute. */
  predicate Earlier(a: (int, int), b: (int, int)) {
    a.0 < b.0 || (a.0 == b.0 && a.1 < b.1)
  }

  predicate Ordered(r: seq<(int, int)>) {
    forall i, j :: 0 <= i < j < |r| ==> Earlier(r[i], r[j])
  }

  lemma ConcatOrdered(a: seq<(int, int)>, b: seq<(int, int)>)
    requires Ordered(a) && Ordered(b)
    requires forall x, y :: x in a && y in b ==> Earlier(x, y)
    ensures Ordered(a + b)
  {
    var r := a + b;
    forall i, j | 0 <= i < j < |r|
      ensures Earlier(r[i], r[j])
    {
      if j < |a| {
        assert r[i] == a[i] && r[j] == a[j];
      } else if i >= |a| {
        assert r[i] == b[i - |a|] && r[j] == b[j - |a|];
      } else {
        assert r[i] == a[i] && r[j] == b[j - |a|];
      }
    }
  }

  /** The pairs come in strictly increasing time order. */
  lemma {:induction false} TimesOrdered(start: int, end: int, interval: int)
    ensures Ordered(Times(start, end, interval))
    decreases end - start
  {
    if start < end {
      var a, b := HourTimes(start, interval), Times(start + 1, end, interval);
      TimesOrdered(start + 1, end, interval);
      TimesMembers(start + 1, end, interval);
      assert Ordered(a);
      forall x, y | x in a && y in b
        ensures Earlier(x, y)
      {
        assert x.0 == start;
      }
      ConcatOrdered(a, b);
    }
  }

  /** The option texts, one per pair. */
  function Labels(ps: seq<(int, int)>): (r: seq<string>)
    ensures |r| == |ps|
    ensures forall k :: 0 <= k < |r| ==> r[k] == Label(ps[k])
  {
    seq(|ps|, k requires 0 <= k < |ps| => Label(ps[k]))
  }

  /** The generated options for the hours `start` up to but excluding `end`. */
  function Generate(start: int, end: int, interval: int): seq<string> {
    Labels(Times(start, end, interval))
  }

  /** The text of one (hour, minute) pair. */
  function Label(p: (int, int)): string {
    HourMinute(p.0, p.1)
  }

  /** An option is generated exactly when it is the text of an hour in the
      range and a minute the interval offers; the count is hours times
      options per hour, so a range with `start >= end` gives none. */
  lemma GenerateLength(start: int, end: int, interval: int)
    ensures |Generate(start, end, interval)| == (if start < end then end - start else 0) * |Minutes(interval)|
  {
    TimesLength(start, end, interval);
  }

  lemma GenerateContents(start: int, end: int, interval: int, t: string)
    ensures t in Generate(start, end, interval) <==>
      exists h, m :: start <= h < end && m in Minutes(interval) && t == Label((h, m))
  {
    if t in Generate(start, end, interval) {
      GenerateSound(start, end, interval, t);
    }
    if exists h, m :: start <= h < end && m in Minutes(interval) && t == Label((h, m)) {
      var h, m :| start <= h < end && m in Minutes(interval) && t == Label((h, m));
      GenerateComplete(start, end, interval, h, m);
    }
  }

  lemma GenerateSound(start: int, end: int, interval: int, t: string)
    requires t in Generate(start, end, interval)
    ensures exists h, m :: start <= h < end && m in Minutes(interval) && t == Label((h, m))
  {
    var ps := Times(start, end, interval);
    TimesMembers(start, end, interval);
    LabelsMembers(ps, t);
    var p :| p in ps && t == Label(p);
    assert start <= p.0 < end && p.1 in Minutes(interval) && t == Label((p.0, p.1));
  }

  lemma GenerateComplete(start: int, end: int, interval: int, h: int, m: int)
    requires start <= h < end && m in Minutes(interval)
    ensures Label((h, m)) in Generate(start, end, interval)
  {
    var ps := Times(start, end, interval);
    TimesMembers(start, end, interval);
    assert (h, m) in ps;
    LabelsMembers(ps, Label((h, m)));
  }

  lemma LabelsMembers(ps: seq<(int, int)>, t: string)
    ensures t in Labels(ps) <==> exists p :: p in ps && t == Label(p)
  {
    var r := Labels(ps);
    if t in r {
      var k :| 0 <= k < |r| && r[k] == t;
      assert ps[k] in ps && t == Label(ps[k]);
    }
    if exists p :: p in ps && t == Label(p) {
      var p :| p in ps && t == Label(p);
      var k :| 0 <= k < |ps| && ps[k] == p;
      assert r[k] == t;
    }
  }

  /** `generatedTimeSlots`: a non-empty `timeSlots` prop is used as given;
      otherwise the picker offers, once each and in increasing order for
      two-digit hours, the `HH:mm` text of every hour in range with every
      minute the interval allows. */
  function Slots(timeSlots: Option<seq<string>>, startHour: int, endHour: int, interval: int): (r: seq<string>)
    ensures timeSlots.Some? && |timeSlots.value| > 0 ==> r == timeSlots.value
    ensures timeSlots.None? || |timeSlots.value| == 0 ==>
      |r| == (if startHour < endHour then endHour - startHour else 0) * |Minutes(interval)|
    ensures timeSlots.None? || |timeSlots.value| == 0 ==>
      forall h, m :: startHour <= h < endHour && m in Minutes(interval) ==> Label((h, m)) in r
    ensures (timeSlots.None? || |timeSlots.value| == 0) && 0 <= startHour && endHour <= 100 ==> Increasing(r)
  {
    GenerateFacts(startHour, endHour, interval);
    if timeSlots.Some? && |timeSlots.value| > 0 then timeSlots.value else Generate(startHour, endHour, interval)
  }

  /** The count, completeness and order facts about `Generate` together. */
  lemma GenerateFacts(start: int, end: int, interval: int)
    ensures |Generate(start, end, interval)| == (if start < end then end - start else 0) * |Minutes(interval)|
    ensures forall h, m :: start <= h < end && m in Minutes(interval) ==> Label((h, m)) in Generate(start, end, interval)
    ensures 0 <= start && end <= 100 ==> Increasing(Generate(start, end, interval))
  {
    GenerateLength(start, end, interval);
    GenerateHasEveryLabel(start, end, interval);
    if 0 <= start && end <= 100 {
      GenerateIncreasing(start, end, interval);
    }
  }

  lemma GenerateHasEveryLabel(start: int, end: int, interval: int)
    ensures forall h, m :: start <= h < end && m in Minutes(interval) ==> Label((h, m)) in Generate(start, end, interval)
  {
    forall h, m | start <= h < end && m in Minutes(interval)
      ensures Label((h, m)) in Generate(start, end, interval)
    {
      GenerateComplete(start, end, interval, h, m);
    }
  }

  /** Every option is earlier than each one after it. */
  predicate Increasing(s: seq<string>) {
    forall i, j :: 0 <= i < j < |s| ==> StrLess(s[i], s[j])
  }

  /** For two-digit hours the generated options are strictly increasing, so
      they are also free of repeats. */
  lemma GenerateIncreasing(start: int, end: int, interval: int)
    requires 0 <= start && end <= 100
    ensures Increasing(Generate(start, end, interval))
  {
    var ps := Times(start, end, interval);
    var r := Generate(start, end, interval);
    TimesOrdered(start, end, interval);
    TimesMembers(start, end, interval);
    forall i, j | 0 <= i < j < |r|
      ensures StrLess(r[i], r[j])
    {
      assert ps[i] in ps && ps[j] in ps;
      HourMinuteOrder(ps[i].0, ps[i].1, ps[j].0, ps[j].1);
    }
  }

  /** The last minute option of an hour. */
  function LastMinute(interval: int): (m: int)
    ensures m == Minutes(interval)[|Minutes(interval)| - 1]
  {
    if interval == 30 then 30 else if interval == 15 then 45 else 0
  }

  /** The first option is the start hour on the hour. */
  lemma GenerateFirst(start: int, end: int, interval: int)
    requires start < end
    ensures var r := Generate(start, end, interval);
      |r| > 0 && r[0] == Label((start, 0))
  {
    TimesEnds(start, end, interval);
    LabelAt(Times(start, end, interval), 0, (start, 0));
  }

  /** The last option is the last minute option of the hour before `end`. */
  lemma GenerateLast(start: int, end: int, interval: int)
    requires start < end
    ensures var r := Generate(start, end, interval);
      |r| > 0 && r[|r| - 1] == Label((end - 1, LastMinute(interval)))
  {
    TimesEnds(start, end, interval);
    var ps := Times(start, end, interval);
    LabelAt(ps, |ps| - 1, (end - 1, LastMinute(interval)));
    var r := Generate(start, end, interval);
    assert r == Labels(ps);
    assert |r| - 1 == |ps| - 1;
  }

  lemma LabelAt(ps: seq<(int, int)>, k: int, p: (int, int))
    requires 0 <= k < |ps| && ps[k] == p
    ensures Labels(ps)[k] == Label(p)
  {
    var r := Labels(ps);
    assert r[k] == Label(ps[k]);
  }

  /** With the default props (hours 8 to 20, interval 30) the picker offers
      24 options, from 08:00 to 19:30; they increase by `GenerateIncreasing`. */
  lemma DefaultSlotCount(startHour: int, endHour: int, interval: int)
    requires startHour == 8 && endHour == 20 && interval == 30
    ensures |Slots(None, startHour, endHour, interval)| == 24
  {
    GenerateLength(startHour, endHour, interval);
  }

  lemma DefaultSlotEnds(startHour: int, endHour: int, interval: int)
    requires startHour == 8 && endHour == 20 && interval == 30
    ensures var r := Slots(None, startHour, endHour, interval);
      |r| > 0 && r[0] == Label((startHour, 0)) && r[|r| - 1] == Label((endHour - 1, interval))
  {
    var r := Generate(startHour, endHour, interval);
    assert r[0] == Label((startHour, 0)) && r[|r| - 1] == Label((endHour - 1, interval)) by {
      GenerateFirst(startHour, endHour, interval);
      GenerateLast(startHour, endHour, interval);
      assert LastMinute(interval) == interval;
    }
    SlotsWithoutProp(startHour, endHour, interval);
  }

  /** Without a `timeSlots` prop the options are the generated ones. */
  lemma SlotsWithoutProp(start: int, end: int, interval: int)
    ensures Slots(None, start, end, interval) == Generate(start, end, interval)
  {
  }

  /** The texts of the first and last default options. */
  lemma DefaultLabels(h0: int, m0: int, h1: int, m1: int)
    requires h0 == 8 && m0 == 0 && h1 == 19 && m1 == 30
    ensures Label((h0, m0)) == "08:00" && Label((h1, m1)) == "19:30"
  {
    var a, b := ZeroPad(h0, 2), ZeroPad(m0, 2);
    assert IntToString(h0) == [DigitChar(h0)];
    assert IntToString(m0) == [DigitChar(m0)];
    assert a == ['0', '8'] && b == ['0', '0'];
    assert Label((h0, m0)) == a + ":" + b;
    var c, d := ZeroPad(h1, 2), ZeroPad(m1, 2);
    assert IntToString(h1) == [DigitChar(1), DigitChar(9)];
    assert IntToString(m1) == [DigitChar(3), DigitChar(0)];
    assert c == ['1', '9'] && d == ['3', '0'];
    assert Label((h1, m1)) == c + ":" + d;
  }

  /** The first pair is the start hour on the hour; the last is the last
      minute option of the hour before `end`. */
  lemma {:induction false} TimesEnds(start: int, end: int, interval: int)
    requires start < end
    ensures var r := Times(start, end, interval);
      |r| > 0 && r[0] == (start, 0) && r[|r| - 1] == (end - 1, LastMinute(interval))
    decreases end - start
  {
    var a, b := HourTimes(start, interval), Times(start + 1, end, interval);
    assert (a + b)[0] == a[0];
    if start + 1 < end {
      TimesEnds(start + 1, end, interval);
      assert (a + b)[|a + b| - 1] == b[|b| - 1];
    } else {
      assert a + b == a;
      assert a[|a| - 1] == (start, LastMinute(interval));
    }
  }
}
