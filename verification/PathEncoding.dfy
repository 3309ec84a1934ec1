/** What a percent-encoded path value is: which characters it may hold, and that the
    receiver reads the value back from it (section 2.1 of RFC 3986 and RFC 3629). */
module PathEncoding {
  import opened Wrappers
  import opened PathTemplate

  // ----- Characters -----

  predicate HexDigit(c: char) {
    '0' <= c <= '9' || 'A' <= c <= 'F'
  }

  /** What a path segment may hold as it is: letters, digits and ten marks. */
  predicate Plain(c: char) {
    || 'a' <= c <= 'z' || 'A' <= c <= 'Z' || '0' <= c <= '9'
    || c == '-' || c == '_' || c == '.' || c == '~' || c == '$' || c == '&' || c == '+' || c == ':' || c == '='
      || c == '@'
  }

  /** Plain characters and percent signs with two hexadecimal digits. */
  predicate WellEncoded(s: string) {
    if s == "" then true
    else if s[0] == '%' then |s| >= 3 && HexDigit(s[1]) && HexDigit(s[2]) && WellEncoded(s[3..])
    else Plain(s[0]) && WellEncoded(s[1..])
  }

  lemma {:induction false} WellEncodedConcat(a: string, b: string)
    requires WellEncoded(a) && WellEncoded(b)
    ensures WellEncoded(a + b)
    decreases |a|
  {
    if a == "" {
      assert a + b == b;
    } else {
      var n := if a[0] == '%' then 3 else 1;
      WellEncodedConcat(a[n..], b);
      assert (a + b)[n..] == a[n..] + b && (a + b)[..n] == a[..n];
      if a[0] == '%' {
        assert (a + b)[1] == (a + b)[..n][1] && (a + b)[2] == (a + b)[..n][2];
      }
    }
  }

  function HexValue(c: char): Option<nat> {
    if '0' <= c <= '9' then Some((c - '0') as nat)
    else if 'A' <= c <= 'F' then Some((c - 'A') as nat + 10)
    else None
  }

  lemma HexDigits(n: nat)
    requires n < 16
    ensures HexDigit(HEX[n]) && HexValue(HEX[n]) == Some(n)
  {
  }

  lemma PercentDigits(b: Byte)
    ensures |Percent(b)| == 3 && Percent(b)[0] == '%' && HexDigit(Percent(b)[1]) && HexDigit(Percent(b)[2])
    ensures HexValue(Percent(b)[1]) == Some(b / 16) && HexValue(Percent(b)[2]) == Some(b % 16)
  {
    HexDigits(b / 16);
    HexDigits(b % 16);
  }

  lemma {:induction false} PercentsAreWellEncoded(bytes: seq<Byte>)
    ensures WellEncoded(Percents(bytes))
  {
    if bytes != [] {
      PercentDigits(bytes[0]);
      PercentsAreWellEncoded(bytes[1..]);
      assert Percent(bytes[0])[3..] == "";
      WellEncodedConcat(Percent(bytes[0]), Percents(bytes[1..]));
    }
  }

  /** An encoded value holds nothing that means something to a URL. */
  lemma {:induction false} EscapeIsWellEncoded(v: string)
    ensures WellEncoded(PathEscape(v))
  {
    if v != "" {
      EscapeIsWellEncoded(v[1..]);
      if Unescaped(v[0]) {
        assert [v[0]][1..] == "";
        WellEncodedConcat([v[0]], PathEscape(v[1..]));
      } else {
        PercentsAreWellEncoded(Utf8(v[0]));
        WellEncodedConcat(Percents(Utf8(v[0])), PathEscape(v[1..]));
      }
    }
  }

  // ----- Reading back -----

  function Behind<T>(first: T, rest: Option<seq<T>>): Option<seq<T>> {
    if rest.Some? then Some([first] + rest.value) else None
  }

  /** The bytes an encoded text stands for: `%XY` is sixteen times the first digit
      plus the second, any other character its ASCII code. */
  function Unpercent(s: string): Option<seq<int>> {
    if s == "" then Some([])
    else if s[0] == '%' then
      if |s| < 3 || HexValue(s[1]).None? || HexValue(s[2]).None? then None
      else Behind(16 * HexValue(s[1]).value + HexValue(s[2]).value, Unpercent(s[3..]))
    else if s[0] as int >= 0x80 then None
    else Behind(s[0] as int, Unpercent(s[1..]))
  }

  predicate Continues(bytes: seq<int>, i: nat) {
    i < |bytes| && 0x80 <= bytes[i] < 0xC0
  }

  predicate CodePoint(n: int) {
    0 <= n < 0xD800 || 0xE000 <= n < 0x11_0000
  }

  /** The code point at the front of UTF-8 bytes, with the number of its bytes. */
  function FirstCode(bytes: seq<int>): Option<(int, nat)> {
    if bytes == [] then None
    else if 0 <= bytes[0] < 0x80 then Some((bytes[0], 1))
    else if 0xC0 <= bytes[0] < 0xE0 && Continues(bytes, 1) then Some(((bytes[0] - 0xC0) * 0x40 + (bytes[1] - 0x80), 2))
    else if 0xE0 <= bytes[0] < 0xF0 && Continues(bytes, 1) && Continues(bytes, 2) then
      Some(((bytes[0] - 0xE0) * 0x1000 + (bytes[1] - 0x80) * 0x40 + (bytes[2] - 0x80), 3))
    else if 0xF0 <= bytes[0] < 0xF8 && Continues(bytes, 1) && Continues(bytes, 2) && Continues(bytes, 3) then
      Some(((bytes[0] - 0xF0) * 0x4_0000 + (bytes[1] - 0x80) * 0x1000 + (bytes[2] - 0x80) * 0x40
        + (bytes[3] - 0x80), 4))
    else None
  }

  function FromUtf8(bytes: seq<int>): Option<string> {
    if bytes == [] then Some("")
    else
      match FirstCode(bytes)
      case None => None
      case Some((code, length)) =>
        if !CodePoint(code) || length == 0 || length > |bytes| then None
        else Behind(code as char, FromUtf8(bytes[length..]))
  }

  function Unescape(s: string): Option<string> {
    match Unpercent(s)
    case None => None
    case Some(bytes) => FromUtf8(bytes)
  }

  function Ints(bytes: seq<Byte>): seq<int> {
    seq(|bytes|, i requires 0 <= i < |bytes| => bytes[i])
  }

  lemma UnpercentOne(b: Byte, rest: string)
    ensures Unpercent(Percent(b) + rest) == Behind(b, Unpercent(rest))
  {
    var s := Percent(b) + rest;
    PercentDigits(b);
    assert s[0] == Percent(b)[0] && s[1] == Percent(b)[1] && s[2] == Percent(b)[2] && s[3..] == rest;
    assert 16 * (b / 16) + b % 16 == b;
  }

  lemma Regroup(b: int, tail: seq<int>, rest: seq<int>)
    ensures [b] + (tail + rest) == ([b] + tail) + rest
  {
  }

  lemma TextRegroup(a: string, b: string, c: string)
    ensures a + b + c == a + (b + c)
  {
  }

  lemma IntsCons(bytes: seq<Byte>)
    requires bytes != []
    ensures Ints(bytes) == [bytes[0] as int] + Ints(bytes[1..])
  {
  }

  lemma {:induction false} UnpercentConcat(bytes: seq<Byte>, rest: string)
    requires Unpercent(rest).Some?
    ensures Unpercent(Percents(bytes) + rest) == Some(Ints(bytes) + Unpercent(rest).value)
  {
    if bytes == [] {
      assert Percents(bytes) + rest == rest && Ints(bytes) + Unpercent(rest).value == Unpercent(rest).value;
    } else {
      var first, tail := bytes[0], bytes[1..];
      UnpercentConcat(tail, rest);
      UnpercentOne(first, Percents(tail) + rest);
      TextRegroup(Percent(first), Percents(tail), rest);
      IntsCons(bytes);
      Regroup(first, Ints(tail), Unpercent(rest).value);
    }
  }

  lemma FirstCodeOfChar(c: char, rest: seq<int>)
    ensures FirstCode(Ints(Utf8(c)) + rest) == Some((c as int, |Utf8(c)|))
    ensures CodePoint(c as int)
  {
    var n, bytes := c as int, Ints(Utf8(c)) + rest;
    assert forall i :: 0 <= i < |Utf8(c)| ==> bytes[i] == Utf8(c)[i];
    if n < 0x80 {
    } else if n < 0x800 {
      assert n == (n / 0x40) * 0x40 + n % 0x40;
    } else if n < 0x10000 {
      assert n / 0x40 == (n / 0x1000) * 0x40 + n / 0x40 % 0x40;
    } else {
      assert n / 0x1000 == (n / 0x4_0000) * 0x40 + n / 0x1000 % 0x40;
      assert n / 0x40 == (n / 0x1000) * 0x40 + n / 0x40 % 0x40;
    }
  }

  lemma FromUtf8Cons(c: char, rest: seq<int>)
    requires FromUtf8(rest).Some?
    ensures FromUtf8(Ints(Utf8(c)) + rest) == Some([c] + FromUtf8(rest).value)
  {
    FirstCodeOfChar(c, rest);
    assert (Ints(Utf8(c)) + rest)[|Utf8(c)|..] == rest;
  }

  lemma PlainIsItsByte(c: char, rest: string)
    requires Unescaped(c) && Unpercent(rest).Some?
    ensures Unpercent([c] + rest) == Unpercent(Percents(Utf8(c)) + rest)
  {
    assert ([c] + rest)[1..] == rest;
    UnpercentConcat(Utf8(c), rest);
    assert Ints(Utf8(c)) == [c as int];
  }

  lemma {:induction false} EscapeReadsAsBytes(v: string)
    ensures Unpercent(PathEscape(v)).Some? && FromUtf8(Unpercent(PathEscape(v)).value) == Some(v)
  {
    if v != "" {
      var c, rest := v[0], PathEscape(v[1..]);
      EscapeReadsAsBytes(v[1..]);
      if Unescaped(c) {
        PlainIsItsByte(c, rest);
      }
      UnpercentConcat(Utf8(c), rest);
      FromUtf8Cons(c, Unpercent(rest).value);
      assert [c] + v[1..] == v;
    }
  }

  /** Whatever the value, the receiver reads it back. */
  lemma EscapeRoundTrip(v: string)
    ensures Unescape(PathEscape(v)) == Some(v)
  {
    EscapeReadsAsBytes(v);
  }
}
