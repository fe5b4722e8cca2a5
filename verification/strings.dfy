/** The JavaScript string operations the application relies on, over
    `seq<char>`: decimal conversion in both directions, `padStart`,
    ASCII case mapping, `includes`, `startsWith`, `trim`, relational
    comparison and `split(":")`. */
module Strings {
  import opened Common

  predicate IsDigit(c: char) {
    '0' <= c <= '9'
  }

  predicate AllDigits(s: string) {
    forall i :: 0 <= i < |s| ==> IsDigit(s[i])
  }

  function DigitChar(d: nat): (c: char)
    requires d < 10
    ensures IsDigit(c)
  {
    ('0' as int + d) as char
  }

  function DigitValue(c: char): (d: nat)
    requires IsDigit(c)
    ensures d < 10
  {
    c as int - '0' as int
  }

  /** The number a string of decimal digits denotes ("" denotes 0). */
  function DigitsValue(s: string): nat
    requires AllDigits(s)
  {
    if |s| == 0 then 0
    else DigitsValue(s[..|s| - 1]) * 10 + DigitValue(s[|s| - 1])
  }

  /** `n.toString()` for a non-negative integer: shortest decimal form. */
  function NatToString(n: nat): (s: string)
    ensures |s| >= 1
    ensures AllDigits(s)
    ensures |s| > 1 ==> s[0] != '0'
    ensures n < 10 <==> |s| == 1
  {
    if n < 10 then [DigitChar(n)] else NatToString(n / 10) + [DigitChar(n % 10)]
  }

  /** `n.toString()` for any integer. */
  function IntToString(n: int): (s: string)
    ensures |s| >= 1
    ensures n >= 0 ==> s == NatToString(n)
    ensures n < 0 ==> s == "-" + NatToString(-n)
  {
    if n < 0 then "-" + NatToString(-n) else NatToString(n)
  }

  lemma {:induction false} DigitsValueOfNatToString(n: nat)
    ensures DigitsValue(NatToString(n)) == n
    decreases n
  {
    if n >= 10 {
      var s := NatToString(n);
      DigitsValueOfNatToString(n / 10);
      assert s[..|s| - 1] == NatToString(n / 10);
    }
  }

  /** Distinct numbers have distinct decimal forms. */
  lemma NatToStringInjective(a: nat, b: nat)
    ensures NatToString(a) == NatToString(b) <==> a == b
  {
    if NatToString(a) == NatToString(b) {
      DigitsValueOfNatToString(a);
      DigitsValueOfNatToString(b);
    }
  }

  /** Length of the longest prefix of `s` made of decimal digits. */
  function DigitPrefixLength(s: string): (k: nat)
    ensures k <= |s|
    ensures AllDigits(s[..k])
    ensures k < |s| ==> !IsDigit(s[k])
  {
    if |s| == 0 || !IsDigit(s[0]) then 0
    else
      var k := 1 + DigitPrefixLength(s[1..]);
      assert s[..k] == [s[0]] + s[1..][..k - 1];
      k
  }

  /** `s` after the leading white space that `parseInt` skips. */
  function TrimStart(s: string): (r: string)
    ensures |r| <= |s|
  {
    if |s| > 0 && IsSpace(s[0]) then TrimStart(s[1..]) else s
  }

  /** What `TrimStart` removes: a prefix of white space, and no more. */
  lemma {:induction false} TrimStartFacts(s: string)
    ensures var r := TrimStart(s);
      && r == s[|s| - |r|..]
      && (|r| > 0 ==> !IsSpace(r[0]))
      && forall i :: 0 <= i < |s| - |r| ==> IsSpace(s[i])
  {
    if |s| > 0 && IsSpace(s[0]) {
      TrimStartFacts(s[1..]);
      assert forall i :: 1 <= i < |s| ==> s[i] == s[1..][i - 1];
    }
  }

  /** Text that starts with no white space is its own trimmed form. */
  lemma TrimStartNoSpace(s: string)
    requires |s| > 0 && (s[0] == '-' || s[0] == '+' || IsDigit(s[0]))
    ensures TrimStart(s) == s
  {
  }

  /** `parseInt(s)` with no radix, for decimal text: leading white space
      is skipped, then an optional sign and the longest run of digits are
      read; `None` stands for `NaN` (no digit after the sign). */
  function ParseInt(s: string): (r: Option<int>)
    ensures r.Some? ==> |s| >= 1
  {
    ParseSigned(TrimStart(s))
  }

  /** `parseInt` once the white space is skipped. */
  function ParseSigned(t: string): (r: Option<int>)
    ensures r.Some? ==> |t| >= 1
  {
    var negative := |t| > 0 && t[0] == '-';
    var rest := if |t| > 0 && (t[0] == '-' || t[0] == '+') then t[1..] else t;
    var k := DigitPrefixLength(rest);
    if k == 0 then None
    else
      var v: int := DigitsValue(rest[..k]);
      Some(if negative then -v else v)
  }

  /** parseInt reads back every decimal form that toString writes. */
  lemma ParseIntOfIntToString(n: int)
    ensures ParseInt(IntToString(n)) == Some(n)
  {
    ParseIntReadsLeadingInteger(n, []);
    assert IntToString(n) + [] == IntToString(n);
  }

  /** parseInt stops at the first character after the digits, so a
      decimal form followed by a fraction or other text reads as the
      number. */
  lemma ParseIntReadsLeadingInteger(n: int, tail: string)
    requires tail == [] || !IsDigit(tail[0])
    ensures ParseInt(IntToString(n) + tail) == Some(n)
  {
    var m: nat := if n < 0 then -n else n;
    var digits := NatToString(m);
    DigitsValueOfNatToString(m);
    var s := IntToString(n) + tail;
    SignedText(n, tail);
    TrimStartNoSpace(s);
    ParseDigitsThenText(digits, tail);
    if n < 0 {
      assert digits[0] == (digits + tail)[0];
      ParseNegated(digits + tail);
    }
  }

  /** The decimal form of `n` followed by `tail`, split at the sign. */
  lemma SignedText(n: int, tail: string)
    ensures n < 0 ==> IntToString(n) + tail == "-" + (NatToString(-n) + tail)
    ensures n >= 0 ==> IntToString(n) + tail == NatToString(n) + tail
    ensures var s := IntToString(n) + tail; |s| > 0 && (s[0] == '-' || IsDigit(s[0]))
  {
  }

  /** A run of digits followed by text that does not start with a digit:
      the run is read, and the rest ignored. */
  lemma ParseDigitsThenText(digits: string, tail: string)
    requires |digits| > 0 && AllDigits(digits)
    requires tail == [] || !IsDigit(tail[0])
    ensures ParseSigned(digits + tail) == Some(DigitsValue(digits))
  {
    var t := digits + tail;
    assert t[0] == digits[0];
    DigitStartIsRead(t);
    ParsePlainDigits(t);
    DigitPrefixStops(digits, tail);
    PrefixOfConcat(digits, tail);
  }

  lemma DigitStartIsRead(t: string)
    requires |t| > 0 && IsDigit(t[0])
    ensures DigitPrefixLength(t) > 0
  {
    assert t[..1] == [t[0]];
  }

  /** Text starting with a digit reads as its leading run of digits. */
  lemma ParsePlainDigits(t: string)
    requires |t| > 0 && IsDigit(t[0]) && DigitPrefixLength(t) > 0
    ensures ParseSigned(t) == Some(DigitsValue(t[..DigitPrefixLength(t)]) as int)
  {
  }

  /** A minus sign before text that starts with a digit negates what is read. */
  lemma ParseNegated(t: string)
    requires |t| > 0 && IsDigit(t[0])
    ensures ParseSigned(t).Some? && ParseSigned("-" + t) == Some(-ParseSigned(t).value)
  {
    DigitStartIsRead(t);
    var u := "-" + t;
    assert u[0] == '-' && u[1..] == t;
  }

  lemma PrefixOfConcat(a: string, b: string)
    ensures (a + b)[..|a|] == a
  {
  }

  lemma {:induction false} DigitPrefixStops(s: string, tail: string)
    requires AllDigits(s)
    requires tail == [] || !IsDigit(tail[0])
    ensures DigitPrefixLength(s + tail) == |s|
  {
    if |s| > 0 {
      assert (s + tail)[1..] == s[1..] + tail;
      DigitPrefixStops(s[1..], tail);
    } else {
      assert s + tail == tail;
    }
  }

  /** `Number(s)` for the strings this application feeds it: a run of
      digits (empty gives 0); anything else is `NaN`, written `None`. */
  function NumberOf(s: string): (r: Option<nat>)
    ensures r.Some? <==> AllDigits(s)
  {
    if AllDigits(s) then Some(DigitsValue(s)) else None
  }

  /** `s.padStart(width, c)`. */
  function PadStart(s: string, width: nat, c: char): (r: string)
    ensures |r| == if |s| >= width then |s| else width
    ensures |s| >= width ==> r == s
    ensures r[|r| - |s|..] == s
    decreases width - |s|
  {
    if |s| >= width then s else PadStart([c] + s, width, c)
  }

  function Pow10(k: nat): (r: nat)
    ensures r >= 1
  {
    if k == 0 then 1 else 10 * Pow10(k - 1)
  }

  /** `n.toString().padStart(width, "0")`. */
  function ZeroPad(n: int, width: nat): string {
    PadStart(IntToString(n), width, '0')
  }

  /** The leading digit weighs `10^(|s|-1)`. */
  lemma {:induction false} DigitsValueFront(s: string)
    requires AllDigits(s) && |s| > 0
    ensures DigitsValue(s) == DigitValue(s[0]) * Pow10(|s| - 1) + DigitsValue(s[1..])
    decreases |s|
  {
    if |s| > 1 {
      var init, rest := s[..|s| - 1], s[1..];
      DigitsValueFront(init);
      assert rest[..|rest| - 1] == init[1..];
      assert rest[|rest| - 1] == s[|s| - 1];
      var d0, p, mid, last := DigitValue(s[0]), Pow10(|s| - 2), DigitsValue(init[1..]), DigitValue(s[|s| - 1]);
      assert DigitsValue(rest) == mid * 10 + last;
      assert DigitsValue(s) == (d0 * p + mid) * 10 + last;
      ShiftDigit(d0, p, mid);
    }
  }

  lemma ShiftDigit(d: nat, p: nat, m: nat)
    ensures (d * p + m) * 10 == d * (p * 10) + m * 10
  {
  }

  lemma {:induction false} DigitsValueBound(s: string)
    requires AllDigits(s)
    ensures DigitsValue(s) < Pow10(|s|)
    decreases |s|
  {
    if |s| > 0 {
      DigitsValueBound(s[..|s| - 1]);
    }
  }

  lemma MulMono(x: nat, y: nat, p: nat)
    requires x <= y
    ensures x * p <= y * p
  {
  }

  /** A smaller leading digit outweighs any tail below the digit's weight. */
  lemma LeadingDigitDecides(da: nat, db: nat, ra: nat, rb: nat, p: nat)
    requires da != db && ra < p && rb < p
    ensures da * p + ra < db * p + rb <==> da < db
  {
    if da < db {
      MulMono(da + 1, db, p);
    } else {
      MulMono(db + 1, da, p);
    }
  }

  /** Text order of two non-empty strings of one length, one step. */
  lemma StrLessStep(a: string, b: string)
    requires |a| == |b| > 0
    ensures StrLess(a, b) <==> a[0] < b[0] || (a[0] == b[0] && StrLess(a[1..], b[1..]))
  {
  }

  /** Digit strings of one length compare as text the way their numbers do. */
  lemma {:induction false} DigitStringOrder(a: string, b: string)
    requires AllDigits(a) && AllDigits(b) && |a| == |b|
    ensures StrLess(a, b) <==> DigitsValue(a) < DigitsValue(b)
    decreases |a|
  {
    if |a| > 0 {
      StrLessStep(a, b);
      DigitsValueFront(a);
      DigitsValueFront(b);
      DigitsValueBound(a[1..]);
      DigitsValueBound(b[1..]);
      if a[0] == b[0] {
        DigitStringOrder(a[1..], b[1..]);
      } else {
        LeadingDigitDecides(DigitValue(a[0]), DigitValue(b[0]), DigitsValue(a[1..]), DigitsValue(b[1..]), Pow10(|a| - 1));
      }
    }
  }

  /** Zeros in front change neither digit-ness nor value. */
  lemma {:induction false} ZeroPadKeepsValue(s: string, width: nat)
    requires AllDigits(s)
    ensures AllDigits(PadStart(s, width, '0'))
    ensures DigitsValue(PadStart(s, width, '0')) == DigitsValue(s)
    decreases width - |s|
  {
    if |s| < width {
      var t := ['0'] + s;
      assert AllDigits(t);
      assert t[1..] == s;
      DigitsValueFront(t);
      assert DigitsValue(t) == DigitsValue(s);
      assert PadStart(s, width, '0') == PadStart(t, width, '0');
      ZeroPadKeepsValue(t, width);
    }
  }

  lemma {:induction false} NatToStringLength(n: nat, k: nat)
    requires 1 <= k && n < Pow10(k)
    ensures |NatToString(n)| <= k
    decreases k
  {
    if n >= 10 {
      NatToStringLength(n / 10, k - 1);
    }
  }

  /** A number below `10^width`, padded, is exactly `width` digits. */
  lemma ZeroPadFacts(n: int, width: nat)
    requires 1 <= width && 0 <= n < Pow10(width)
    ensures |ZeroPad(n, width)| == width
    ensures AllDigits(ZeroPad(n, width))
    ensures DigitsValue(ZeroPad(n, width)) == n
  {
    var s := NatToString(n);
    assert ZeroPad(n, width) == PadStart(s, width, '0');
    NatToStringLength(n, width);
    ZeroPadKeepsValue(s, width);
    DigitsValueOfNatToString(n);
  }

  /** Padded numbers compare as text exactly as they compare as numbers. */
  lemma ZeroPadOrder(a: int, b: int, width: nat)
    requires 1 <= width && 0 <= a < Pow10(width) && 0 <= b < Pow10(width)
    ensures StrLess(ZeroPad(a, width), ZeroPad(b, width)) <==> a < b
    ensures ZeroPad(a, width) == ZeroPad(b, width) <==> a == b
  {
    ZeroPadFacts(a, width);
    ZeroPadFacts(b, width);
    DigitStringOrder(ZeroPad(a, width), ZeroPad(b, width));
  }

  function ToLowerChar(c: char): char {
    if 'A' <= c <= 'Z' then (c as int + 32) as char else c
  }

  function ToUpperChar(c: char): char {
    if 'a' <= c <= 'z' then (c as int - 32) as char else c
  }

  /** `s.toLowerCase()` on ASCII letters. */
  function ToLower(s: string): (r: string)
    ensures |r| == |s|
    ensures forall i :: 0 <= i < |s| ==> r[i] == ToLowerChar(s[i])
  {
    seq(|s|, i requires 0 <= i < |s| => ToLowerChar(s[i]))
  }

  /** Lower-casing twice is lower-casing once. */
  lemma ToLowerIdempotent(s: string)
    ensures ToLower(ToLower(s)) == ToLower(s)
  {
  }

  /** `s.charAt(0).toUpperCase() + s.slice(1)`. */
  function Capitalize(s: string): (r: string)
    ensures |r| == |s|
    ensures |s| > 0 ==> r[0] == ToUpperChar(s[0]) && r[1..] == s[1..]
  {
    if |s| == 0 then "" else [ToUpperChar(s[0])] + s[1..]
  }

  /** `s.includes(sub)`. */
  predicate Contains(s: string, sub: string) {
    exists i | 0 <= i <= |s| - |sub| :: OccursAt(s, sub, i)
  }

  /** `sub` occurs in `s` starting at index `i`. */
  predicate OccursAt(s: string, sub: string, i: int) {
    0 <= i && i + |sub| <= |s| && s[i..i + |sub|] == sub
  }

  lemma ContainsEmpty(s: string)
    ensures Contains(s, "")
  {
    assert OccursAt(s, "", 0);
  }

  /** `s.startsWith(prefix)`. */
  predicate StartsWith(s: string, prefix: string) {
    |prefix| <= |s| && s[..|prefix|] == prefix
  }

  /** The search rule every admin list uses: case-insensitive substring. */
  predicate MatchesSearch(text: string, query: string) {
    Contains(ToLower(text), ToLower(query))
  }

  lemma EmptyQueryMatches(text: string)
    ensures MatchesSearch(text, "")
  {
    ContainsEmpty(ToLower(text));
  }

  /** Some item equals `x` once both are lower-cased. */
  predicate AnyEqualIgnoringCase(items: seq<string>, x: string) {
    exists i :: 0 <= i < |items| && ToLower(items[i]) == ToLower(x)
  }

  /** A character `String.prototype.trim` removes: the white space and line
      terminators of section 12.2 and 12.3 of ECMA-262, which include every
      space separator of Unicode category Zs. */
  predicate IsSpace(c: char) {
    || c == ' ' || c == '\t' || c == '\n' || c == '\r' || c == '\U{000B}' || c == '\U{000C}'
    || c == '\U{00A0}' || c == '\U{1680}' || '\U{2000}' <= c <= '\U{200A}'
    || c == '\U{2028}' || c == '\U{2029}' || c == '\U{202F}' || c == '\U{205F}'
    || c == '\U{3000}' || c == '\U{FEFF}'
  }

  /** `!s.trim()`: the string is empty or whitespace only. */
  predicate IsBlank(s: string) {
    forall i :: 0 <= i < |s| ==> IsSpace(s[i])
  }

  /** JavaScript `a < b` on strings: lexicographic on characters. */
  predicate StrLess(a: string, b: string)
    decreases |a|
  {
    if |b| == 0 then false
    else if |a| == 0 then true
    else if a[0] != b[0] then a[0] < b[0]
    else StrLess(a[1..], b[1..])
  }

  /** A string is never below itself. */
  lemma {:induction false} StrLessIrreflexive(a: string)
    ensures !StrLess(a, a)
    decreases |a|
  {
    if |a| > 0 {
      StrLessIrreflexive(a[1..]);
    }
  }

  /** `<` on strings is asymmetric. */
  lemma {:induction false} StrLessAsymmetric(a: string, b: string)
    ensures StrLess(a, b) ==> !StrLess(b, a)
    decreases |a|
  {
    if |a| > 0 && |b| > 0 && a[0] == b[0] {
      StrLessAsymmetric(a[1..], b[1..]);
    }
  }

  /** Of two distinct strings, one is below the other. */
  lemma {:induction false} StrLessTotal(a: string, b: string)
    ensures a != b ==> StrLess(a, b) || StrLess(b, a)
    decreases |a|
  {
    if |a| > 0 && |b| > 0 && a[0] == b[0] {
      StrLessTotal(a[1..], b[1..]);
      if a[1..] == b[1..] {
        assert a == [a[0]] + a[1..] && b == [b[0]] + b[1..];
      }
    }
  }

  /** Two strings sharing a prefix compare as their remainders do. */
  lemma {:induction false} StrLessCommonPrefix(p: string, a: string, b: string)
    ensures StrLess(p + a, p + b) == StrLess(a, b)
    decreases |p|
  {
    if |p| > 0 {
      assert (p + a)[0] == p[0] == (p + b)[0];
      assert (p + a)[1..] == p[1..] + a;
      assert (p + b)[1..] == p[1..] + b;
      StrLessCommonPrefix(p[1..], a, b);
    } else {
      assert p + a == a && p + b == b;
    }
  }

  /** Text order of two strings with equal-length heads: the heads decide
      unless they are equal. */
  lemma {:induction false} StrLessConcat(a: string, b: string, x: string, y: string)
    requires |a| == |b|
    ensures StrLess(a + x, b + y) <==> StrLess(a, b) || (a == b && StrLess(x, y))
    decreases |a|
  {
    if |a| > 0 {
      assert (a + x)[1..] == a[1..] + x;
      assert (b + y)[1..] == b[1..] + y;
      StrLessConcat(a[1..], b[1..], x, y);
      if a[0] == b[0] && a[1..] == b[1..] {
        assert a == [a[0]] + a[1..] && b == [b[0]] + b[1..];
      }
    } else {
      assert a + x == x && b + y == y;
    }
  }

  /** The parts of `s.split(":")`, at most the first two, as the source
      destructures them: `const [h, m] = s.split(":")`. */
  function SplitColon(s: string): (r: (string, Option<string>))
    ensures ':' !in r.0
    ensures r.1.None? ==> r.0 == s
    ensures r.1.Some? ==> StartsWith(s, r.0 + ":")
  {
    if |s| == 0 then ("", None)
    else if s[0] == ':' then
      var rest := SplitColon(s[1..]);
      ("", Some(rest.0))
    else
      var rest := SplitColon(s[1..]);
      assert s == [s[0]] + s[1..];
      ([s[0]] + rest.0, rest.1)
  }
}
