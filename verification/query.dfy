/** `URLSearchParams` as the pages use it to build request URLs and as the
    route handlers use it to read them back: form encoding of names and
    values, `&`/`=` serialisation, parsing and `get`. */
module UrlQuery {
  import opened Common
  import opened Strings

  /** Characters `URLSearchParams` leaves as they are. */
  predicate IsFormSafe(c: char) {
    ('a' <= c <= 'z') || ('A' <= c <= 'Z') || IsDigit(c)
    || c == '*' || c == '-' || c == '.' || c == '_'
  }

  function HexDigit(d: nat): char
    requires d < 16
  {
    if d < 10 then DigitChar(d) else ('A' as int + d - 10) as char
  }

  /** application/x-www-form-urlencoded serialisation of one character
      (space becomes `+`, other unsafe characters below U+0080 become `%XX`). */
  function FormEncodeChar(c: char): (r: string)
    ensures |r| >= 1
    ensures '&' !in r && '=' !in r
  {
    if IsFormSafe(c) then [c]
    else if c == ' ' then "+"
    else if (c as int) < 128 then ['%', HexDigit(c as int / 16), HexDigit(c as int % 16)]
    else [c]
  }

  function FormEncode(s: string): (r: string)
    ensures |r| >= |s|
    ensures '&' !in r && '=' !in r
  {
    if |s| == 0 then "" else FormEncodeChar(s[0]) + FormEncode(s[1..])
  }

  /** A text made of characters left as they are encodes to itself. */
  lemma {:induction false} FormEncodeSafe(s: string)
    requires forall i :: 0 <= i < |s| ==> IsFormSafe(s[i])
    ensures FormEncode(s) == s
  {
    if |s| > 0 {
      FormEncodeSafe(s[1..]);
    }
  }

  /** One pair of safe texts is written out as it is. */
  lemma SafePairQuery(path: string, name: string, value: string)
    requires forall i :: 0 <= i < |name| ==> IsFormSafe(name[i])
    requires forall i :: 0 <= i < |value| ==> IsFormSafe(value[i])
    ensures WithQuery(path, [(name, value)]) == path + "?" + name + "=" + value
  {
    FormEncodeSafe(name);
    FormEncodeSafe(value);
    assert QueryString([(name, value)]) == name + "=" + value;
  }

  /** A number's decimal text is left as it is. */
  lemma IntToStringFormSafe(n: int)
    ensures var s := IntToString(n); forall i :: 0 <= i < |s| ==> IsFormSafe(s[i])
  {
    var s := IntToString(n);
    forall i | 0 <= i < |s|
      ensures IsFormSafe(s[i])
    {
      if n < 0 && i > 0 {
        assert s[i] == NatToString(-n)[i - 1];
      }
    }
  }

  /** `new URLSearchParams(...).toString()` for the appended pairs, in order. */
  function QueryString(params: seq<(string, string)>): (r: string)
    ensures r == "" <==> |params| == 0
  {
    if |params| == 0 then ""
    else
      var head := FormEncode(params[0].0) + "=" + FormEncode(params[0].1);
      if |params| == 1 then head else head + "&" + QueryString(params[1..])
  }

  /** `url += params.toString() ? "?" + params.toString() : ""`. */
  function WithQuery(path: string, params: seq<(string, string)>): (r: string)
    ensures |params| == 0 ==> r == path
    ensures |params| > 0 ==> r == path + "?" + QueryString(params)
  {
    var q := QueryString(params);
    if q == "" then path else path + "?" + q
  }

  function HexValue(c: char): (r: Option<nat>)
    ensures r.Some? ==> r.value < 16
  {
    if '0' <= c <= '9' then Some(c as int - '0' as int)
    else if 'A' <= c <= 'F' then Some(c as int - 'A' as int + 10)
    else if 'a' <= c <= 'f' then Some(c as int - 'a' as int + 10)
    else None
  }

  lemma HexRoundTrip(d: nat)
    requires d < 16
    ensures HexValue(HexDigit(d)) == Some(d)
  {
  }

  /** The decoding applied to each name and value: `+` is a space and `%XX`
      (two hex digits) the character with that code. */
  function FormDecode(s: string): string
    decreases |s|
  {
    if |s| == 0 then ""
    else if s[0] == '+' then " " + FormDecode(s[1..])
    else if s[0] == '%' && |s| >= 3 && HexValue(s[1]).Some? && HexValue(s[2]).Some? then
      [(HexValue(s[1]).value * 16 + HexValue(s[2]).value) as char] + FormDecode(s[3..])
    else [s[0]] + FormDecode(s[1..])
  }

  lemma DecodeEncodedChar(c: char, rest: string)
    ensures FormDecode(FormEncodeChar(c) + rest) == [c] + FormDecode(rest)
  {
    var e := FormEncodeChar(c) + rest;
    if IsFormSafe(c) || (c != ' ' && (c as int) >= 128) {
      assert e[1..] == rest;
    } else if c == ' ' {
      assert e[1..] == rest;
    } else {
      var n := c as int;
      HexRoundTrip(n / 16);
      HexRoundTrip(n % 16);
      assert e[3..] == rest;
      assert ((n / 16) * 16 + n % 16) as char == c;
    }
  }

  /** Decoding undoes encoding, for every string. */
  lemma {:induction false} FormDecodeEncode(s: string)
    ensures FormDecode(FormEncode(s)) == s
    decreases |s|
  {
    if |s| > 0 {
      DecodeEncodedChar(s[0], FormEncode(s[1..]));
      FormDecodeEncode(s[1..]);
      assert s == [s[0]] + s[1..];
    }
  }

  /** `s.split(sep)` for a one-character separator. */
  function Split(s: string, sep: char): (r: seq<string>)
    ensures |r| >= 1
    ensures sep !in s ==> r == [s]
    ensures |r| > 1 ==> |r[0]| < |s| && s[|r[0]|] == sep
  {
    if |s| == 0 then [""]
    else if s[0] == sep then [""] + Split(s[1..], sep)
    else
      var rest := Split(s[1..], sep);
      assert sep !in s ==> s == [s[0]] + s[1..];
      [[s[0]] + rest[0]] + rest[1..]
  }

  lemma {:induction false} SplitAfterPiece(a: string, sep: char, b: string)
    requires sep !in a
    ensures Split(a + [sep] + b, sep) == [a] + Split(b, sep)
    decreases |a|
  {
    var s := a + [sep] + b;
    if |a| == 0 {
      assert s[1..] == b;
    } else {
      assert s[1..] == a[1..] + [sep] + b;
      SplitAfterPiece(a[1..], sep, b);
      assert a == [a[0]] + a[1..];
    }
  }

  /** One `name=value` piece: split at the first `=`; without one, the
      value is empty. */
  function SplitPair(piece: string): (r: (string, string))
  {
    var parts := Split(piece, '=');
    if |parts| == 1 then (parts[0], "")
    else (parts[0], piece[|parts[0]| + 1..])
  }

  /** `SplitPair` ends the name at the first `=` and keeps every later `=`
      in the value. */
  lemma {:induction false} SplitPairOf(n: string, v: string)
    requires '=' !in n
    ensures SplitPair(n + "=" + v) == (n, v)
  {
    SplitAfterPiece(n, '=', v);
    var piece := n + "=" + v;
    assert piece == n + ['='] + v;
    assert piece[|n| + 1..] == v;
  }

  function DecodePair(piece: string): (string, string) {
    var p := SplitPair(piece);
    (FormDecode(p.0), FormDecode(p.1))
  }

  /** `new URLSearchParams(q)`: the pairs of the non-empty `&`-pieces, in order. */
  function ParseQuery(q: string): seq<(string, string)> {
    Pairs(Split(q, '&'))
  }

  function Pairs(pieces: seq<string>): seq<(string, string)> {
    if |pieces| == 0 then []
    else if pieces[0] == "" then Pairs(pieces[1..])
    else [DecodePair(pieces[0])] + Pairs(pieces[1..])
  }

  function EncodePair(p: (string, string)): (r: string)
    ensures '&' !in r && r != ""
  {
    var r := FormEncode(p.0) + "=" + FormEncode(p.1);
    assert r[|FormEncode(p.0)|] == '=';
    r
  }

  lemma DecodeEncodePair(p: (string, string))
    ensures DecodePair(EncodePair(p)) == p
  {
    SplitPairOf(FormEncode(p.0), FormEncode(p.1));
    FormDecodeEncode(p.0);
    FormDecodeEncode(p.1);
  }

  lemma {:induction false} QueryStringPieces(params: seq<(string, string)>)
    requires |params| > 0
    ensures Split(QueryString(params), '&') == seq(|params|, i requires 0 <= i < |params| => EncodePair(params[i]))
    decreases |params|
  {
    var head := EncodePair(params[0]);
    var whole := seq(|params|, i requires 0 <= i < |params| => EncodePair(params[i]));
    if |params| > 1 {
      var rest := params[1..];
      var tail := seq(|rest|, i requires 0 <= i < |rest| => EncodePair(rest[i]));
      QueryStringPieces(rest);
      SplitAfterPiece(head, '&', QueryString(rest));
      assert QueryString(params) == head + ['&'] + QueryString(rest);
      assert whole == [head] + tail by {
        forall i | 0 <= i < |whole|
          ensures whole[i] == ([head] + tail)[i]
        {
          if i > 0 {
            assert rest[i - 1] == params[i];
          }
        }
      }
    } else {
      assert QueryString(params) == head;
      assert whole == [head];
    }
  }

  lemma {:induction false} PairsOfEncoded(params: seq<(string, string)>)
    ensures Pairs(seq(|params|, i requires 0 <= i < |params| => EncodePair(params[i]))) == params
    decreases |params|
  {
    if |params| > 0 {
      var pieces := seq(|params|, i requires 0 <= i < |params| => EncodePair(params[i]));
      assert pieces[1..] == seq(|params| - 1, i requires 0 <= i < |params| - 1 => EncodePair(params[1..][i]));
      PairsOfEncoded(params[1..]);
      DecodeEncodePair(params[0]);
      assert params == [params[0]] + params[1..];
    }
  }

  /** Reading a serialised query gives back exactly the appended pairs. */
  lemma ParseQueryString(params: seq<(string, string)>)
    ensures ParseQuery(QueryString(params)) == params
  {
    if |params| > 0 {
      QueryStringPieces(params);
      PairsOfEncoded(params);
    }
  }

  /** `searchParams.get(name)`: the value of the first pair with that name. */
  function Get(pairs: seq<(string, string)>, name: string): (r: Option<string>)
    ensures r.None? <==> forall i :: 0 <= i < |pairs| ==> pairs[i].0 != name
    ensures r.Some? ==> exists i :: 0 <= i < |pairs| && pairs[i] == (name, r.value)
  {
    if |pairs| == 0 then None
    else if pairs[0].0 == name then Some(pairs[0].1)
    else
      var r := Get(pairs[1..], name);
      assert forall i :: 1 <= i < |pairs| ==> pairs[i] == pairs[1..][i - 1];
      r
  }

  /** A parameter that is present only when `b` holds. */
  function Param(b: bool, name: string, value: string): (r: seq<(string, string)>)
    ensures |r| <= 1
  {
    if b then [(name, value)] else []
  }

  /** `Get` on a concatenation looks in the second part only when the first
      has no such name. */
  lemma {:induction false} GetConcat(a: seq<(string, string)>, b: seq<(string, string)>, name: string)
    ensures Get(a + b, name) == if Get(a, name).Some? then Get(a, name) else Get(b, name)
  {
    if |a| > 0 {
      assert (a + b)[0] == a[0];
      assert (a + b)[1..] == a[1..] + b;
      GetConcat(a[1..], b, name);
    } else {
      assert a + b == b;
    }
  }

  /** The query part of a URL built by `WithQuery` ("" when there is none). */
  function QueryOf(url: string): string {
    var parts := Split(url, '?');
    if |parts| == 1 then "" else url[|parts[0]| + 1..]
  }

  lemma QueryOfWithQuery(path: string, params: seq<(string, string)>)
    requires '?' !in path
    ensures ParseQuery(QueryOf(WithQuery(path, params))) == params
  {
    if |params| > 0 {
      var url := path + "?" + QueryString(params);
      assert url == path + ['?'] + QueryString(params);
      SplitAfterPiece(path, '?', QueryString(params));
      assert url[|path| + 1..] == QueryString(params);
    }
    ParseQueryString(params);
  }
}
