/** A small JSON codec standing in for the host's JSON.stringify / JSON.parse.

    The value space is the subset the adapter's behaviour depends on: null,
    booleans, natural numbers and strings. Serialize writes these values as
    JSON.stringify does, except that numbers are unbounded naturals written in
    plain decimal (JSON.stringify switches to exponent notation from 1e21 on).
    Parse accepts that text back, plus some other spellings JSON allows
    (surrounding whitespace, the escapes \/ and \uXXXX, upper-case hex
    digits), and rejects arbitrary text such as "this is invalid JSON". It
    does not accept every spelling JSON.parse does: fractions, exponents,
    negative numbers and surrogate escapes are refused. */
module Json {
  import opened Wrappers

  datatype Value = Null | Bool(b: bool) | Num(n: nat) | Str(s: string)

  // ---------------------------------------------------------------------------
  // Characters

  predicate IsDigit(c: char) { '0' <= c <= '9' }

  predicate AllDigits(s: string) { forall i :: 0 <= i < |s| ==> IsDigit(s[i]) }

  function DigitChar(d: nat): (c: char)
    requires d < 10
    ensures IsDigit(c)
  {
    ('0' as int + d) as char
  }

  function DigitValue(c: char): (d: nat)
    requires IsDigit(c)
    ensures d < 10 && DigitChar(d) == c
  {
    c as int - '0' as int
  }

  predicate IsHex(c: char) { IsDigit(c) || 'a' <= c <= 'f' || 'A' <= c <= 'F' }

  /** Lower-case hex digit, as JSON.stringify writes in \u00xx escapes. */
  function HexChar(d: nat): (c: char)
    requires d < 16
    ensures IsHex(c)
  {
    if d < 10 then DigitChar(d) else ('a' as int + (d - 10)) as char
  }

  function HexValue(c: char): (d: nat)
    requires IsHex(c)
    ensures d < 16
    ensures 'A' <= c <= 'F' || HexChar(d) == c
  {
    if IsDigit(c) then DigitValue(c)
    else if 'a' <= c <= 'f' then c as int - 'a' as int + 10
    else c as int - 'A' as int + 10
  }

  /** The whitespace JSON allows around a value. */
  predicate IsWhitespace(c: char) { c == ' ' || c == '\t' || c == '\n' || c == '\r' }

  // ---------------------------------------------------------------------------
  // Serialization

  /** Decimal digits of n, without leading zeros. */
  function NatToDigits(n: nat): (r: string)
    ensures |r| >= 1 && AllDigits(r)
    ensures r[0] == '0' <==> n == 0
    decreases n
  {
    if n < 10 then [DigitChar(n)] else NatToDigits(n / 10) + [DigitChar(n % 10)]
  }

  /** The escaped form of one string character, following JSON.stringify:
      quote and backslash, the five short control escapes, \u00xx for the
      remaining control characters, and the character itself otherwise. */
  function EscapeChar(c: char): (r: string)
    ensures |r| >= 1
  {
    if c == '"' then "\\\""
    else if c == '\\' then "\\\\"
    else if c == 8 as char then "\\b"
    else if c == '\t' then "\\t"
    else if c == '\n' then "\\n"
    else if c == 12 as char then "\\f"
    else if c == '\r' then "\\r"
    else if (c as int) < 0x20 then "\\u00" + [HexChar(c as int / 16), HexChar(c as int % 16)]
    else [c]
  }

  function Escape(s: string): string
  {
    if |s| == 0 then "" else EscapeChar(s[0]) + Escape(s[1..])
  }

  function Serialize(v: Value): (r: string)
    ensures |r| >= 1 && !IsWhitespace(r[0]) && !IsWhitespace(r[|r| - 1])
  {
    match v
    case Null => "null"
    case Bool(b) => if b then "true" else "false"
    case Num(n) => NatToDigits(n)
    case Str(s) => "\"" + Escape(s) + "\""
  }

  // ---------------------------------------------------------------------------
  // Parsing

  function TrimStart(s: string): (r: string)
    ensures |r| == 0 || !IsWhitespace(r[0])
  {
    if |s| > 0 && IsWhitespace(s[0]) then TrimStart(s[1..]) else s
  }

  function TrimEnd(s: string): (r: string)
    ensures |r| == 0 || !IsWhitespace(r[|r| - 1])
  {
    if |s| > 0 && IsWhitespace(s[|s| - 1]) then TrimEnd(s[..|s| - 1]) else s
  }

  function Trim(s: string): string
  {
    TrimEnd(TrimStart(s))
  }

  /** The number a digit string denotes (most significant digit first). */
  function DigitsToNat(s: string): nat
    requires AllDigits(s)
  {
    if |s| == 0 then 0 else DigitsToNat(s[..|s| - 1]) * 10 + DigitValue(s[|s| - 1])
  }

  /** The character an escape sequence denotes, given the text after the
      backslash, and how many characters of that text the escape uses. */
  function Unescape(u: string): (r: Option<(char, nat)>)
    ensures r.Some? ==> 1 <= r.value.1 <= |u|
  {
    if |u| == 0 then None
    else if u[0] == '"' then Some(('"', 1))
    else if u[0] == '\\' then Some(('\\', 1))
    else if u[0] == '/' then Some(('/', 1))
    else if u[0] == 'b' then Some((8 as char, 1))
    else if u[0] == 't' then Some(('\t', 1))
    else if u[0] == 'n' then Some(('\n', 1))
    else if u[0] == 'f' then Some((12 as char, 1))
    else if u[0] == 'r' then Some(('\r', 1))
    else if u[0] == 'u' && |u| >= 5 && IsHex(u[1]) && IsHex(u[2]) && IsHex(u[3]) && IsHex(u[4]) then
      var code := HexValue(u[1]) * 4096 + HexValue(u[2]) * 256 + HexValue(u[3]) * 16 + HexValue(u[4]);
      if 0xD800 <= code < 0xE000 then None else Some((code as char, 5))
    else None
  }

  /** Prepends a decoded character to the result of parsing the rest of a string body. */
  function Cons(c: char, r: Result<(string, string), string>): Result<(string, string), string>
  {
    match r
    case Success((s, rest)) => Success(([c] + s, rest))
    case Failure(e) => Failure(e)
  }

  /** Parses a string body (the text after the opening quote) up to and
      including the closing quote; yields the decoded characters and the text
      after the closing quote. */
  function ParseChars(t: string): Result<(string, string), string>
    decreases |t|
  {
    if |t| == 0 then Failure("unterminated string")
    else if t[0] == '"' then Success(([], t[1..]))
    else if t[0] == '\\' then
      match Unescape(t[1..])
      case None => Failure("bad escape in string")
      case Some((c, n)) => Cons(c, ParseChars(t[1 + n..]))
    else if (t[0] as int) < 0x20 then Failure("control character in string")
    else Cons(t[0], ParseChars(t[1..]))
  }

  /** JSON.parse restricted to the modelled subset: a non-failure result is
      the value the text denotes. For the non-string values the text (once
      trimmed) is the only spelling, so it is exactly what Serialize writes. */
  function Parse(text: string): (r: Result<Value, string>)
    ensures r.Success? && !r.value.Str? ==> Serialize(r.value) == Trim(text)
    ensures r.Success? ==> |Trim(text)| > 0
  {
    var t := Trim(text);
    if t == "null" then Success(Null)
    else if t == "true" then Success(Bool(true))
    else if t == "false" then Success(Bool(false))
    else if |t| > 0 && IsDigit(t[0]) then
      if AllDigits(t) && (t[0] != '0' || |t| == 1) then
        DigitsCanonical(t);
        Success(Num(DigitsToNat(t)))
      else Failure("invalid number")
    else if |t| > 0 && t[0] == '"' then
      match ParseChars(t[1..])
      case Success((s, rest)) => if |rest| == 0 then Success(Str(s)) else Failure("unexpected text after string")
      case Failure(e) => Failure(e)
    else Failure("unexpected token")
  }

  // ---------------------------------------------------------------------------
  // Lemmas

  lemma {:induction false} DigitsRoundTrip(n: nat)
    ensures DigitsToNat(NatToDigits(n)) == n
    decreases n
  {
    var s := NatToDigits(n);
    if n >= 10 {
      var p := NatToDigits(n / 10);
      assert s[..|s| - 1] == p;
      DigitsRoundTrip(n / 10);
    }
  }

  lemma {:induction false} DigitsPositive(s: string)
    requires |s| >= 1 && AllDigits(s) && s[0] != '0'
    ensures DigitsToNat(s) >= 1
    decreases |s|
  {
    if |s| > 1 {
      DigitsPositive(s[..|s| - 1]);
    }
  }

  /** A digit string without a leading zero is the only decimal spelling of its number. */
  lemma {:induction false} DigitsCanonical(s: string)
    requires |s| >= 1 && AllDigits(s) && (s[0] != '0' || |s| == 1)
    ensures NatToDigits(DigitsToNat(s)) == s
    decreases |s|
  {
    if |s| > 1 {
      var p := s[..|s| - 1];
      DigitsPositive(p);
      DigitsCanonical(p);
      var n := DigitsToNat(s);
      assert n / 10 == DigitsToNat(p);
      assert n % 10 == DigitValue(s[|s| - 1]);
      assert s == p + [s[|s| - 1]];
    }
  }

  lemma TrimNoop(s: string)
    requires |s| >= 1 && !IsWhitespace(s[0]) && !IsWhitespace(s[|s| - 1])
    ensures Trim(s) == s
  {
  }

  lemma HexRoundTrip(d: nat)
    requires d < 16
    ensures HexValue(HexChar(d)) == d
  {
  }

  /** A control character without a short escape is written \u00xx, and that
      escape decodes back to it. */
  lemma UnicodeEscapeParses(c: char, tail: string)
    requires (c as int) < 0x20
    ensures ParseChars("\\u00" + [HexChar(c as int / 16), HexChar(c as int % 16)] + tail) == Cons(c, ParseChars(tail))
  {
    var hi, lo := c as int / 16, c as int % 16;
    var t := "\\u00" + [HexChar(hi), HexChar(lo)] + tail;
    var u := ['u', '0', '0', HexChar(hi), HexChar(lo)] + tail;
    assert t == ['\\'] + u;
    assert t[0] == '\\' && t[1..] == u;
    HexRoundTrip(hi);
    HexRoundTrip(lo);
    assert HexValue(u[1]) * 4096 + HexValue(u[2]) * 256 + HexValue(u[3]) * 16 + HexValue(u[4]) == c as int;
    assert Unescape(u) == Some((c, 5));
    assert t[1 + 5..] == tail;
  }

  /** Parsing one escaped character consumes exactly its escape. */
  lemma EscapeCharParses(c: char, tail: string)
    ensures ParseChars(EscapeChar(c) + tail) == Cons(c, ParseChars(tail))
  {
    var t := EscapeChar(c) + tail;
    if (c as int) < 0x20 && c != 8 as char && c != '\t' && c != '\n' && c != 12 as char && c != '\r' {
      UnicodeEscapeParses(c, tail);
    } else if |EscapeChar(c)| == 2 {
      assert t[0] == '\\' && t[1 + 1..] == tail;
    } else {
      assert t[0] == c && t[1..] == tail;
    }
  }

  /** The body of a serialized string parses back to the original characters,
      stopping exactly at the closing quote. */
  lemma {:induction false} EscapeRoundTrip(s: string, rest: string)
    ensures ParseChars(Escape(s) + "\"" + rest) == Success((s, rest))
    decreases |s|
  {
    if |s| == 0 {
      assert Escape(s) + "\"" + rest == "\"" + rest;
      assert ("\"" + rest)[1..] == rest;
    } else {
      var tail := Escape(s[1..]) + "\"" + rest;
      assert Escape(s) + "\"" + rest == EscapeChar(s[0]) + tail;
      EscapeCharParses(s[0], tail);
      EscapeRoundTrip(s[1..], rest);
      assert [s[0]] + s[1..] == s;
    }
  }

  /** JSON.parse(JSON.stringify(v)) is v, for every modelled value,
      including the falsy ones (false, 0, "", null). */
  lemma {:induction false} ParseSerialize(v: Value)
    ensures Parse(Serialize(v)) == Success(v)
  {
    var t := Serialize(v);
    TrimNoop(t);
    match v
    case Null =>
    case Bool(b) =>
    case Num(n) =>
      assert t[0] != 'n' && t[0] != 't' && t[0] != 'f';
      DigitsRoundTrip(n);
    case Str(s) =>
      assert t[0] == '"';
      assert t[1..] == Escape(s) + "\"" + [];
      EscapeRoundTrip(s, []);
  }

  /** Distinct values never share a serialization, so a stored false can
      never be read back as null, 0 or "". */
  lemma SerializeInjective(v: Value, w: Value)
    requires Serialize(v) == Serialize(w)
    ensures v == w
  {
    ParseSerialize(v);
    ParseSerialize(w);
  }

  /** Free text is rejected: the host's flat store may hold entries written
      by someone else, and those must surface as parse errors. */
  lemma RejectsFreeText()
    ensures Parse("this is invalid JSON").Failure?
    ensures Parse("this is invalid JSON 1").Failure?
    ensures Parse("this is invalid JSON 2").Failure?
  {
  }
}
