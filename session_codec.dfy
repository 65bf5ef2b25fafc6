/**
 * The investor session record as `setSession` stores it in localStorage
 * (investor-gate.js): `JSON.stringify({ ...data, ts })` on the visitor's
 * email, name and company, and the `JSON.parse` that `getSession` applies to
 * it. The parser reads JSON text in exactly the layout `JSON.stringify`
 * writes for such a record; the round trip is proved.
 */
module SessionCodec {
  import opened Wrappers
  import opened Text

  /** What `setSession` stores: the three visitor fields, in the order written, then the write time in milliseconds. */
  datatype SessionRecord = SessionRecord(email: string, name: string, company: string, ts: nat)

  // ---------------------------------------------------------------------------
  // JSON strings
  // ---------------------------------------------------------------------------

  /** A lower-case hexadecimal digit, as JSON.stringify writes `\u00XX`. */
  function HexDigit(n: nat): char
    requires n < 16
  {
    if n < 10 then ('0' as int + n) as char else ('a' as int + n - 10) as char
  }

  /** The value of a hexadecimal digit of either case. */
  function HexValue(c: char): (v: Option<nat>)
    ensures v.Some? ==> v.value < 16
  {
    if '0' <= c <= '9' then Some(c as int - '0' as int)
    else if 'a' <= c <= 'f' then Some(c as int - 'a' as int + 10)
    else if 'A' <= c <= 'F' then Some(c as int - 'A' as int + 10)
    else None
  }

  lemma HexRoundTrip(n: nat)
    requires n < 16
    ensures HexValue(HexDigit(n)) == Some(n)
  {
  }

  /** How JSON.stringify writes one character inside a string literal. */
  function EscapeJsonChar(c: char): string {
    if c == '"' then "\\\""
    else if c == '\\' then "\\\\"
    else if c == '\U{8}' then "\\b"
    else if c == '\U{C}' then "\\f"
    else if c == '\n' then "\\n"
    else if c == '\r' then "\\r"
    else if c == '\t' then "\\t"
    else if c < ' ' then "\\u00" + [HexDigit(c as int / 16), HexDigit(c as int % 16)]
    else [c]
  }

  /** The body of a JSON string literal, without its quotes. */
  function EscapeJson(s: string): string {
    if s == [] then [] else EscapeJsonChar(s[0]) + EscapeJson(s[1..])
  }

  /** The character a one-letter escape `\x` stands for in JSON. */
  function ShortEscape(x: char): Option<char> {
    if x == '"' || x == '\\' || x == '/' then Some(x)
    else if x == 'b' then Some('\U{8}')
    else if x == 'f' then Some('\U{C}')
    else if x == 'n' then Some('\n')
    else if x == 'r' then Some('\r')
    else if x == 't' then Some('\t')
    else None
  }

  /** The code unit of a `\uXXXX` escape, from its four hexadecimal digits. */
  function UnicodeEscape(h: string): (v: Option<nat>)
    requires |h| == 4
    ensures v.Some? ==> v.value < 0x10000
  {
    match (HexValue(h[0]), HexValue(h[1]), HexValue(h[2]), HexValue(h[3]))
    case (Some(a), Some(b), Some(c), Some(d)) => Some(((a * 16 + b) * 16 + c) * 16 + d)
    case _ => None
  }

  /**
   * The character an escape at the start of `t` stands for, and the escape's
   * length; None for an escape JSON.parse refuses. A `\u` escape of a UTF-16
   * surrogate is refused too (see README).
   */
  function EscapeAt(t: string): (r: Option<(char, nat)>)
    requires t != [] && t[0] == '\\'
    ensures r.Some? ==> 2 <= r.value.1 <= |t|
  {
    if |t| < 2 then None
    else if t[1] == 'u' then
      if |t| < 6 then None
      else match UnicodeEscape(t[2..6])
        case None => None
        case Some(v) => if 0xD800 <= v <= 0xDFFF then None else Some((v as char, 6))
    else match ShortEscape(t[1])
      case None => None
      case Some(c) => Some((c, 2))
  }

  /** Prepends one decoded character to a parse result. */
  function Cons(c: char, r: Option<(string, string)>): Option<(string, string)> {
    match r
    case None => None
    case Some((s, rest)) => Some(([c] + s, rest))
  }

  /**
   * `JSON.parse` on the inside of a string literal: the decoded text and what
   * follows the closing quote, or None where JSON.parse throws (a raw control
   * character, an unknown escape, no closing quote).
   */
  function ParseStringBody(t: string): Option<(string, string)>
    decreases |t|
  {
    if t == [] then None
    else if t[0] == '"' then Some(([], t[1..]))
    else if t[0] == '\\' then
      match EscapeAt(t)
      case None => None
      case Some((c, n)) => Cons(c, ParseStringBody(t[n..]))
    else if t[0] < ' ' then None
    else Cons(t[0], ParseStringBody(t[1..]))
  }

  /** Reading one written character back. */
  lemma EscapeJsonCharRoundTrip(c: char, tail: string)
    ensures ParseStringBody(EscapeJsonChar(c) + tail) == Cons(c, ParseStringBody(tail))
  {
    var t := EscapeJsonChar(c) + tail;
    if c == '"' || c == '\\' || c == '\U{8}' || c == '\U{C}' || c == '\n' || c == '\r' || c == '\t' {
      ShortEscapeRoundTrip(c, tail);
    } else if c < ' ' {
      ControlEscapeRoundTrip(c, tail);
    } else {
      assert t[0] == c && t[1..] == tail;
    }
  }

  /** The seven characters JSON.stringify writes as a backslash and one letter. */
  lemma ShortEscapeRoundTrip(c: char, tail: string)
    requires c == '"' || c == '\\' || c == '\U{8}' || c == '\U{C}' || c == '\n' || c == '\r' || c == '\t'
    ensures ParseStringBody(EscapeJsonChar(c) + tail) == Cons(c, ParseStringBody(tail))
  {
    var e := EscapeJsonChar(c);
    assert |e| == 2 && e[0] == '\\' && ShortEscape(e[1]) == Some(c);
    var t := e + tail;
    assert t[0] == '\\' && t[1] == e[1] && t[2..] == tail;
  }

  /** The other control characters, written as `\u00XX`. */
  lemma ControlEscapeRoundTrip(c: char, tail: string)
    requires c < ' ' && c != '\U{8}' && c != '\U{C}' && c != '\n' && c != '\r' && c != '\t'
    ensures ParseStringBody(EscapeJsonChar(c) + tail) == Cons(c, ParseStringBody(tail))
  {
    var hi, lo := c as int / 16, c as int % 16;
    var e := EscapeJsonChar(c);
    assert e == "\\u00" + [HexDigit(hi), HexDigit(lo)];
    var t := e + tail;
    assert t[0] == '\\' && t[1] == 'u';
    assert t[2..6] == ['0', '0', HexDigit(hi), HexDigit(lo)];
    HexRoundTrip(hi);
    HexRoundTrip(lo);
    assert UnicodeEscape(t[2..6]) == Some(c as int);
    assert t[6..] == tail;
  }

  /** A written string literal reads back as the same text, followed by whatever came after it. */
  lemma {:induction false} JsonStringRoundTrip(s: string, rest: string)
    ensures ParseStringBody(EscapeJson(s) + ("\"" + rest)) == Some((s, rest))
  {
    if s == [] {
      assert EscapeJson(s) + ("\"" + rest) == "\"" + rest;
    } else {
      JsonStringRoundTrip(s[1..], rest);
      assert EscapeJson(s) + ("\"" + rest) == EscapeJsonChar(s[0]) + (EscapeJson(s[1..]) + ("\"" + rest));
      EscapeJsonCharRoundTrip(s[0], EscapeJson(s[1..]) + ("\"" + rest));
      assert [s[0]] + s[1..] == s;
    }
  }

  // ---------------------------------------------------------------------------
  // JSON numbers (the write time)
  // ---------------------------------------------------------------------------

  function DigitChar(d: nat): char
    requires d < 10
  {
    ('0' as int + d) as char
  }

  predicate IsDigit(c: char) {
    '0' <= c <= '9'
  }

  /** How JSON.stringify writes a non-negative integer (below 10^21): decimal, no leading zero. */
  function NatDigits(n: nat): string {
    if n < 10 then [DigitChar(n)] else NatDigits(n / 10) + [DigitChar(n % 10)]
  }

  /** The value of a run of decimal digits. */
  function DigitsValue(d: string): nat
    requires forall i :: 0 <= i < |d| ==> IsDigit(d[i])
  {
    if d == [] then 0
    else
      assert IsDigit(d[|d| - 1]);
      DigitsValue(d[..|d| - 1]) * 10 + (d[|d| - 1] as int - '0' as int)
  }

  /** How many decimal digits `t` starts with. */
  function DigitRun(t: string): (k: nat)
    ensures k <= |t|
  {
    if t != [] && IsDigit(t[0]) then 1 + DigitRun(t[1..]) else 0
  }

  lemma {:induction false} DigitRunShape(t: string)
    ensures forall i :: 0 <= i < DigitRun(t) ==> IsDigit(t[i])
  {
    if t != [] && IsDigit(t[0]) {
      DigitRunShape(t[1..]);
      assert forall i :: 1 <= i < DigitRun(t) ==> t[i] == t[1..][i - 1];
    }
  }

  /**
   * `JSON.parse` on a number in the record: a non-empty digit run without a
   * leading zero (JSON refuses `01`), and what follows it.
   */
  function ParseNat(t: string): Option<(nat, string)> {
    var k := DigitRun(t);
    if k == 0 || (k > 1 && t[0] == '0') then None
    else
      DigitRunShape(t);
      Some((DigitsValue(t[..k]), t[k..]))
  }

  /** NatDigits writes digits only, and a leading zero only for zero itself. */
  lemma {:induction false} NatDigitsShape(n: nat)
    ensures |NatDigits(n)| >= 1
    ensures forall i :: 0 <= i < |NatDigits(n)| ==> IsDigit(NatDigits(n)[i])
    ensures NatDigits(n)[0] == '0' ==> n == 0
    ensures n == 0 ==> NatDigits(n) == "0"
  {
    if n >= 10 {
      NatDigitsShape(n / 10);
    }
  }

  /** Reading a written integer gives it back. */
  lemma {:induction false} NatDigitsValue(n: nat)
    ensures forall i :: 0 <= i < |NatDigits(n)| ==> IsDigit(NatDigits(n)[i])
    ensures DigitsValue(NatDigits(n)) == n
  {
    NatDigitsShape(n);
    if n >= 10 {
      NatDigitsValue(n / 10);
      var d := NatDigits(n);
      assert d[..|d| - 1] == NatDigits(n / 10);
    }
  }

  /** A digit run followed by text that does not start with a digit ends where the digits end. */
  lemma {:induction false} DigitRunAppend(d: string, tail: string)
    requires forall i :: 0 <= i < |d| ==> IsDigit(d[i])
    requires tail == [] || !IsDigit(tail[0])
    ensures DigitRun(d + tail) == |d|
  {
    if d == [] {
      assert d + tail == tail;
    } else {
      assert (d + tail)[1..] == d[1..] + tail;
      DigitRunAppend(d[1..], tail);
    }
  }

  /** A written integer reads back, followed by whatever came after it. */
  lemma NatRoundTrip(n: nat, tail: string)
    requires tail == [] || !IsDigit(tail[0])
    ensures ParseNat(NatDigits(n) + tail) == Some((n, tail))
  {
    var d := NatDigits(n);
    NatDigitsShape(n);
    NatDigitsValue(n);
    DigitRunAppend(d, tail);
    var t := d + tail;
    assert t[..|d|] == d && t[|d|..] == tail;
    assert t[0] == d[0];
  }

  // ---------------------------------------------------------------------------
  // The record
  // ---------------------------------------------------------------------------

  const EmailKey := "{\"email\":"
  const NameKey := ",\"name\":"
  const CompanyKey := ",\"company\":"
  const TsKey := ",\"ts\":"

  /** A key (with what precedes it), the string value in quotes, then the rest of the text. */
  function Field(key: string, value: string, tail: string): string {
    key + ("\"" + (EscapeJson(value) + ("\"" + tail)))
  }

  /** `JSON.stringify({ email, name, company, ts })`. */
  function EncodeSession(r: SessionRecord): string {
    Field(EmailKey, r.email, Field(NameKey, r.name, Field(CompanyKey, r.company, TsKey + (NatDigits(r.ts) + "}"))))
  }

  /** Reads `key` followed by a string literal. */
  function ParseField(t: string, key: string): Option<(string, string)> {
    if StartsWith(t, key + "\"") then ParseStringBody(t[|key| + 1..]) else None
  }

  /**
   * `JSON.parse` of a stored session, for text in the layout JSON.stringify
   * writes; None for text it cannot read (where `getSession` catches the
   * exception and reports no session).
   */
  function ParseSession(t: string): Option<SessionRecord> {
    match ParseField(t, EmailKey)
    case None => None
    case Some((email, r1)) =>
      match ParseField(r1, NameKey)
      case None => None
      case Some((name, r2)) =>
        match ParseField(r2, CompanyKey)
        case None => None
        case Some((company, r3)) =>
          if !StartsWith(r3, TsKey) then None
          else match ParseNat(r3[|TsKey|..])
            case None => None
            case Some((ts, r4)) => if r4 == "}" then Some(SessionRecord(email, name, company, ts)) else None
  }

  lemma FieldRoundTrip(key: string, value: string, tail: string)
    ensures ParseField(Field(key, value, tail), key) == Some((value, tail))
  {
    var t := Field(key, value, tail);
    assert t == (key + "\"") + (EscapeJson(value) + ("\"" + tail));
    assert t[..|key| + 1] == key + "\"";
    assert t[|key| + 1..] == EscapeJson(value) + ("\"" + tail);
    JsonStringRoundTrip(value, tail);
  }

  /** What `setSession` writes, `getSession` reads back unchanged: the three fields and the write time. */
  lemma SessionRoundTrip(r: SessionRecord)
    ensures ParseSession(EncodeSession(r)) == Some(r)
  {
    var r3 := TsKey + (NatDigits(r.ts) + "}");
    var r2 := Field(CompanyKey, r.company, r3);
    var r1 := Field(NameKey, r.name, r2);
    FieldRoundTrip(EmailKey, r.email, r1);
    FieldRoundTrip(NameKey, r.name, r2);
    FieldRoundTrip(CompanyKey, r.company, r3);
    assert r3[..|TsKey|] == TsKey;
    assert r3[|TsKey|..] == NatDigits(r.ts) + "}";
    NatRoundTrip(r.ts, "}");
  }

  /** The stored text is never empty, so `getSession`'s `if (!raw)` never mistakes a written session for none. */
  lemma EncodedSessionNotEmpty(r: SessionRecord)
    ensures EncodeSession(r) != ""
    ensures EncodeSession(r)[0] == '{'
  {
    assert EncodeSession(r) == EmailKey + ("\"" + (EscapeJson(r.email) + ("\"" + Field(NameKey, r.name, Field(CompanyKey, r.company, TsKey + (NatDigits(r.ts) + "}"))))));
  }
}
