/** The JSON-like value model (`ValueOrIntrinsic` of index.d.ts) and the two
    pieces of JSON text handling the compilers use: `JSON.stringify` (of strings,
    arrays and objects) and `JSON.parse` of a string literal.

    An intrinsic is NOT a separate variant: the source builds intrinsics as
    ordinary objects with the keys `fn` and `args`, and the model does the same
    (see module Intrinsics).
 */
module Json {
  import opened Wrappers
  import Text

  /** A JavaScript number. Finite values are kept exactly; `NaN` is what
      `Number.parseInt` returns for text without leading digits. */
  datatype Number = Finite(r: real) | NaN

  datatype Value =
    | Null
    | Bool(b: bool)
    | Num(n: Number)
    | Str(s: string)
    | Arr(items: seq<Value>)
    /** An object with its properties in insertion order. */
    | Obj(fields: seq<Field>)

  datatype Field = Field(key: string, value: Value)

  function Keys(fields: seq<Field>): (r: seq<string>)
    ensures |r| == |fields|
    ensures forall i :: 0 <= i < |fields| ==> r[i] == fields[i].key
  {
    seq(|fields|, i requires 0 <= i < |fields| => fields[i].key)
  }

  /** The value stored under `key`, if any. */
  function Lookup(fields: seq<Field>, key: string): (r: Option<Value>)
    ensures r.None? <==> key !in Keys(fields)
    ensures r.Some? ==> Field(key, r.value) in fields
  {
    if |fields| == 0 then None
    else if fields[0].key == key then Some(fields[0].value)
    else Lookup(fields[1..], key)
  }

  predicate HasKey(v: Value, key: string) {
    v.Obj? && key in Keys(v.fields)
  }

  /** Every object in `v` has pairwise distinct keys, as a JavaScript object does. */
  predicate WellFormed(v: Value) {
    match v
    case Arr(items) => forall i :: 0 <= i < |items| ==> WellFormed(items[i])
    case Obj(fields) =>
      && (forall i, j :: 0 <= i < j < |fields| ==> fields[i].key != fields[j].key)
      && (forall i :: 0 <= i < |fields| ==> WellFormed(fields[i].value))
    case _ => true
  }

  /** `v` holds no number anywhere (the legacy emitter only serializes strings). */
  predicate NumberFree(v: Value) {
    match v
    case Num(_) => false
    case Arr(items) => forall i :: 0 <= i < |items| ==> NumberFree(items[i])
    case Obj(fields) => forall i :: 0 <= i < |fields| ==> NumberFree(fields[i].value)
    case _ => true
  }

  // Hexadecimal digits

  function HexDigit(d: nat): (c: char)
    requires d < 16
    ensures IsHex(c) && HexValue(c) == d
  {
    if d < 10 then ('0' as int + d) as char else ('a' as int + d - 10) as char
  }

  predicate IsHex(c: char) {
    '0' <= c <= '9' || 'a' <= c <= 'f' || 'A' <= c <= 'F'
  }

  function HexValue(c: char): (d: nat)
    requires IsHex(c)
    ensures d < 16
  {
    if '0' <= c <= '9' then (c as int - '0' as int) as nat
    else if 'a' <= c <= 'f' then (c as int - 'a' as int + 10) as nat
    else (c as int - 'A' as int + 10) as nat
  }

  /** The value of the four hex digits `s[i..i + 4]`, if they are hex digits. */
  function Hex4(s: string, i: nat): (r: Option<nat>)
    ensures r.Some? ==> r.value < 0x10000
  {
    if i + 4 <= |s| && IsHex(s[i]) && IsHex(s[i + 1]) && IsHex(s[i + 2]) && IsHex(s[i + 3])
    then Some(((HexValue(s[i]) * 16 + HexValue(s[i + 1])) * 16 + HexValue(s[i + 2])) * 16 + HexValue(s[i + 3]))
    else None
  }

  // JSON.stringify of a string

  /** How `JSON.stringify` writes one character inside a string literal. */
  function EscapeChar(c: char): (r: string)
    ensures |r| > 0
    ensures c != '"' && c != '\\' && c >= ' ' ==> r == [c]
  {
    if c == '"' then "\\\""
    else if c == '\\' then "\\\\"
    else if c == '\U{0008}' then "\\b"
    else if c == '\t' then "\\t"
    else if c == '\n' then "\\n"
    else if c == '\U{000C}' then "\\f"
    else if c == '\r' then "\\r"
    else if c < ' ' then "\\u00" + [HexDigit(c as int / 16), HexDigit(c as int % 16)]
    else [c]
  }

  function Escape(s: string): string
  {
    if |s| == 0 then "" else EscapeChar(s[0]) + Escape(s[1..])
  }

  /** `JSON.stringify(s)` for a string `s`. */
  function Quote(s: string): (r: string)
    ensures DecodeString(r) == Ok(s)
  {
    QuoteRoundTrip(s);
    "\"" + Escape(s) + "\""
  }

  // JSON.parse of a string literal

  predicate IsJsonSpace(c: char) {
    c == ' ' || c == '\t' || c == '\n' || c == '\r'
  }

  function TrimJsonSpace(s: string): (r: string)
    ensures |r| <= |s|
    ensures |s| > 0 && !IsJsonSpace(s[0]) && !IsJsonSpace(s[|s| - 1]) ==> r == s
  {
    if |s| > 0 && IsJsonSpace(s[0]) then TrimJsonSpace(s[1..])
    else if |s| > 0 && IsJsonSpace(s[|s| - 1]) then TrimJsonSpace(s[..|s| - 1])
    else s
  }

  function Prepend(c: char, r: Option<(string, string)>): Option<(string, string)>
  {
    match r
    case None => None
    case Some((d, rest)) => Some(([c] + d, rest))
  }

  /** Decodes the characters of a string literal after its opening quote,
      returning the decoded text and what follows the closing quote. */
  function DecodeChars(s: string): (r: Option<(string, string)>)
    decreases |s|
    ensures r.Some? ==> |r.value.1| < |s|
  {
    if |s| == 0 then None
    else if s[0] == '"' then Some(("", s[1..]))
    else if s[0] < ' ' then None
    else if s[0] != '\\' then Prepend(s[0], DecodeChars(s[1..]))
    else if |s| < 2 then None
    else if s[1] == '"' then Prepend('"', DecodeChars(s[2..]))
    else if s[1] == '\\' then Prepend('\\', DecodeChars(s[2..]))
    else if s[1] == '/' then Prepend('/', DecodeChars(s[2..]))
    else if s[1] == 'b' then Prepend('\U{0008}', DecodeChars(s[2..]))
    else if s[1] == 'f' then Prepend('\U{000C}', DecodeChars(s[2..]))
    else if s[1] == 'n' then Prepend('\n', DecodeChars(s[2..]))
    else if s[1] == 'r' then Prepend('\r', DecodeChars(s[2..]))
    else if s[1] == 't' then Prepend('\t', DecodeChars(s[2..]))
    else if s[1] != 'u' then None
    else
      match Hex4(s, 2)
      case None => None
      case Some(u) =>
        if u < 0xD800 || 0xE000 <= u then Prepend(u as char, DecodeChars(s[6..]))
        else if 0xDC00 <= u then None
        else if |s| >= 8 && s[6] == '\\' && s[7] == 'u' then
          match Hex4(s, 8)
          case None => None
          case Some(l) =>
            if 0xDC00 <= l < 0xE000
            then Prepend((0x10000 + (u - 0xD800) * 0x400 + (l - 0xDC00)) as char, DecodeChars(s[12..]))
            else None
        else None
  }

  /** `JSON.parse(text)` where `text` must denote a JSON string. */
  function DecodeString(text: string): (r: Result<string>)
    ensures r.Fail? ==> r.error == JsonSyntax(text)
  {
    var t := TrimJsonSpace(text);
    if |t| > 0 && t[0] == '"' then
      match DecodeChars(t[1..])
      case Some((d, rest)) => if rest == "" then Ok(d) else Fail(JsonSyntax(text))
      case None => Fail(JsonSyntax(text))
    else Fail(JsonSyntax(text))
  }

  lemma EscapeCharDecodes(c: char, rest: string)
    ensures DecodeChars(EscapeChar(c) + rest) == Prepend(c, DecodeChars(rest))
  {
    var e := EscapeChar(c) + rest;
    if c < ' ' && c != '\U{0008}' && c != '\t' && c != '\n' && c != '\U{000C}' && c != '\r' {
      var h := c as int / 16;
      var l := c as int % 16;
      assert e[2..6] == ['0', '0', HexDigit(h), HexDigit(l)];
      assert Hex4(e, 2) == Some(c as int);
      assert e[6..] == rest;
    } else if c == '"' || c == '\\' || c == '\U{0008}' || c == '\t' || c == '\n' || c == '\U{000C}' || c == '\r' {
      assert e[2..] == rest;
    } else {
      assert e[1..] == rest;
    }
  }

  /** `JSON.parse` undoes `JSON.stringify` on strings. */
  lemma {:induction false} QuoteRoundTrip(s: string)
    ensures DecodeString("\"" + Escape(s) + "\"") == Ok(s)
  {
    EscapeDecodes(s, "");
    var q := "\"" + Escape(s) + "\"";
    assert q[1..] == Escape(s) + "\"" + "";
    assert TrimJsonSpace(q) == q;
  }

  lemma {:induction false} EscapeDecodes(s: string, tail: string)
    ensures DecodeChars(Escape(s) + "\"" + tail) == Some((s, tail))
  {
    if |s| == 0 {
      assert Escape(s) + "\"" + tail == "\"" + tail;
    } else {
      var rest := Escape(s[1..]) + "\"" + tail;
      assert Escape(s) + "\"" + tail == EscapeChar(s[0]) + rest;
      EscapeCharDecodes(s[0], rest);
      EscapeDecodes(s[1..], tail);
      assert [s[0]] + s[1..] == s;
    }
  }

  // JSON.stringify of a number-free value

  /** `JSON.stringify(v)` with no indentation, for a value holding no numbers. */
  function Serialize(v: Value): (r: string)
    requires NumberFree(v)
    ensures |r| > 0
    ensures v.Str? ==> DecodeString(r) == Ok(v.s)
    ensures v.Arr? ==> r[0] == '[' && r[|r| - 1] == ']'
    ensures v.Obj? ==> r[0] == '{' && r[|r| - 1] == '}'
  {
    match v
    case Null => "null"
    case Bool(b) => if b then "true" else "false"
    case Str(s) => Quote(s)
    case Arr(items) =>
      "[" + Text.Join(seq(|items|, i requires 0 <= i < |items| => Serialize(items[i])), ",") + "]"
    case Obj(fields) =>
      "{" + Text.Join(seq(|fields|, i requires 0 <= i < |fields| =>
                        Quote(fields[i].key) + ":" + Serialize(fields[i].value)), ",") + "}"
  }
}
