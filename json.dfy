/** JSON values as `JSON.stringify` sees the arguments of a cached call, and the
    text `JSON.stringify` produces for them (the grammar of sections 4 to 9 of ECMA-404,
    without insignificant whitespace, with the string escaping of section 25.5.2.3,
    QuoteJSONString, of ECMA-262). */
module Json {

  /** A JSON value. Numbers are integers; an object is the ordered list of its
      members, in the order in which `JSON.stringify` enumerates them. */
  datatype Json =
    | JNull
    | JBool(b: bool)
    | JInt(i: int)
    | JString(s: string)
    | JArray(elements: seq<Json>)
    | JObject(members: seq<Member>)

  datatype Member = Member(name: string, value: Json)

  const QuoteMark: char := '"'
  const Backslash: char := '\\'
  const BackspaceChar: char := 8 as char
  const FormFeedChar: char := 12 as char

  predicate IsDigit(c: char) { '0' <= c <= '9' }

  function Digit(d: nat): (c: char)
    requires d < 10
    ensures IsDigit(c)
  {
    (('0' as int) + d) as char
  }

  function DigitValue(c: char): (d: nat)
    requires IsDigit(c)
    ensures d < 10 && Digit(d) == c
  {
    (c as int) - ('0' as int)
  }

  /** Lower-case hexadecimal digit, as ECMA-262's UnicodeEscape writes it. */
  function HexDigit(d: nat): (c: char)
    requires d < 16
  {
    if d < 10 then Digit(d) else (('a' as int) + d - 10) as char
  }

  /** The decimal digits of `n`, most significant first, without leading zeros. */
  function NatDigits(n: nat): (r: string)
    ensures |r| > 0
    ensures forall i :: 0 <= i < |r| ==> IsDigit(r[i])
    ensures n > 0 ==> r[0] != '0'
    ensures n == 0 ==> r == "0"
    decreases n
  {
    if n < 10 then [Digit(n)] else NatDigits(n / 10) + [Digit(n % 10)]
  }

  /** The value of a string of decimal digits, most significant first. */
  function DigitsValue(ds: string): nat
    requires forall i :: 0 <= i < |ds| ==> IsDigit(ds[i])
  {
    if |ds| == 0 then 0 else DigitsValue(ds[..|ds| - 1]) * 10 + DigitValue(ds[|ds| - 1])
  }

  lemma {:induction false} DigitsValueOfNatDigits(n: nat)
    ensures DigitsValue(NatDigits(n)) == n
    decreases n
  {
    var r := NatDigits(n);
    if n >= 10 {
      assert r[..|r| - 1] == NatDigits(n / 10);
      DigitsValueOfNatDigits(n / 10);
    }
  }

  /** ECMA-262 QuoteJSONString, one code point at a time. */
  function EscapeChar(c: char): (r: string)
    ensures |r| > 0
    ensures forall k :: 0 <= k < |r| ==> r[k] as int >= 0x20
    ensures |r| == 1 <==> (c as int >= 0x20 && c != QuoteMark && c != Backslash)
    ensures |r| == 1 ==> r[0] == c
    ensures |r| > 1 ==> r[0] == Backslash
  {
    if c == QuoteMark then [Backslash, QuoteMark]
    else if c == Backslash then [Backslash, Backslash]
    else if c == BackspaceChar then [Backslash, 'b']
    else if c == FormFeedChar then [Backslash, 'f']
    else if c == '\n' then [Backslash, 'n']
    else if c == '\r' then [Backslash, 'r']
    else if c == '\t' then [Backslash, 't']
    else if (c as int) < 0x20 then
      [Backslash, 'u', '0', '0', HexDigit((c as int) / 16), HexDigit((c as int) % 16)]
    else [c]
  }

  /** The body of a JSON string; it is at least as long as the string it stands for. */
  function Escape(s: string): (r: string)
    ensures |r| >= |s|
  {
    if |s| == 0 then [] else EscapeChar(s[0]) + Escape(s[1..])
  }

  /** No raw control character survives escaping, as ECMA-404 requires of a string. */
  lemma {:induction false} EscapeIsPrintable(s: string)
    ensures forall k :: 0 <= k < |Escape(s)| ==> Escape(s)[k] as int >= 0x20
    decreases |s|
  {
    if |s| > 0 {
      EscapeIsPrintable(s[1..]);
      var head, tail := EscapeChar(s[0]), Escape(s[1..]);
      assert Escape(s) == head + tail;
      forall k | 0 <= k < |head + tail|
        ensures (head + tail)[k] as int >= 0x20
      {
        if k >= |head| {
          assert (head + tail)[k] == tail[k - |head|];
        }
      }
    }
  }

  /** A JSON string literal: the escaped text between two quotation marks. */
  function Quote(s: string): (r: string)
    ensures |r| >= 2 && r[0] == QuoteMark && r[|r| - 1] == QuoteMark
  {
    [QuoteMark] + Escape(s) + [QuoteMark]
  }

  /** The characters a serialized JSON value can begin with. */
  predicate StartsValue(c: char)
  {
    c == 'n' || c == 't' || c == 'f' || c == '-' || IsDigit(c)
    || c == QuoteMark || c == '[' || c == '{'
  }

  /** An integer in decimal, with a leading minus sign when negative. */
  function IntText(i: int): (r: string)
    ensures |r| > 0 && (r[0] == '-' || IsDigit(r[0]))
    ensures r[0] == '-' <==> i < 0
  {
    if i < 0 then "-" + NatDigits(-i) else NatDigits(i)
  }

  /** `JSON.stringify(v)` with no indentation. */
  function Serialize(v: Json): (r: string)
    ensures |r| > 0 && StartsValue(r[0])
    decreases v, 1
  {
    match v
    case JNull => "null"
    case JBool(b) => if b then "true" else "false"
    case JInt(i) => IntText(i)
    case JString(s) => Quote(s)
    case JArray(es) => "[" + SerializeElements(es) + "]"
    case JObject(ms) => "{" + SerializeMembers(ms) + "}"
  }

  /** The elements of an array, joined by commas. */
  function SerializeElements(es: seq<Json>): (r: string)
    ensures |es| > 0 ==> |r| > 0 && r[0] == Serialize(es[0])[0]
    decreases es, 0
  {
    if |es| == 0 then ""
    else if |es| == 1 then Serialize(es[0])
    else Serialize(es[0]) + "," + SerializeElements(es[1..])
  }

  function SerializeMember(m: Member): (r: string)
    ensures |r| > 0 && r[0] == QuoteMark
    decreases m, 0
  {
    Quote(m.name) + ":" + Serialize(m.value)
  }

  /** The members of an object, joined by commas, in their enumeration order. */
  function SerializeMembers(ms: seq<Member>): (r: string)
    ensures |ms| > 0 ==> |r| > 0 && r[0] == QuoteMark
    decreases ms, 0
  {
    if |ms| == 0 then ""
    else if |ms| == 1 then SerializeMember(ms[0])
    else SerializeMember(ms[0]) + "," + SerializeMembers(ms[1..])
  }
}
