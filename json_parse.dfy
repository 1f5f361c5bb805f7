/** A parser for the JSON text that `Json.Serialize` writes: the grammar of
    sections 4 to 9 of ECMA-404 restricted to integer numbers and text without
    insignificant whitespace. It is the inverse the serializer is checked
    against: parsing what was serialized gives back the value, so two different
    argument lists never serialize to the same text. */
module JsonParse {
  import opened Wrappers
  import opened Json

  /** A parse of a prefix: the value read and the text after it. */
  type Parsed<T> = Option<(T, string)>

  predicate IsHexDigit(c: char)
  {
    IsDigit(c) || 'a' <= c <= 'f' || 'A' <= c <= 'F'
  }

  function HexValue(c: char): (d: nat)
    requires IsHexDigit(c)
    ensures d < 16
  {
    if IsDigit(c) then DigitValue(c)
    else if 'a' <= c <= 'f' then (c as int) - ('a' as int) + 10
    else (c as int) - ('A' as int) + 10
  }

  lemma {:induction false} HexValueOfHexDigit(d: nat)
    requires d < 16
    ensures IsHexDigit(HexDigit(d)) && HexValue(HexDigit(d)) == d
  {
  }

  /** The number of decimal digits `s` begins with. */
  function DigitRun(s: string): (k: nat)
    ensures k <= |s|
    ensures forall i :: 0 <= i < k ==> IsDigit(s[i])
    ensures k < |s| ==> !IsDigit(s[k])
  {
    if |s| == 0 || !IsDigit(s[0]) then 0 else 1 + DigitRun(s[1..])
  }

  /** ECMA-404 `int` without its sign: `0`, or a non-zero digit followed by digits. */
  function ParseNat(s: string): (r: Parsed<nat>)
    ensures r.Some? ==> |r.value.1| < |s|
  {
    var k := DigitRun(s);
    if k == 0 || (s[0] == '0' && k > 1) then None
    else Some((DigitsValue(s[..k]), s[k..]))
  }

  function ParseInt(s: string): (r: Parsed<int>)
    ensures r.Some? ==> |r.value.1| < |s|
  {
    if |s| > 0 && s[0] == '-' then
      match ParseNat(s[1..])
      case None => None
      case Some((n, rest)) => Some((-(n as int), rest))
    else
      match ParseNat(s)
      case None => None
      case Some((n, rest)) => Some((n as int, rest))
  }

  /** The character an escape sequence stands for; `s` is the text after the backslash. */
  function Unescape(s: string): (r: Parsed<char>)
    ensures r.Some? ==> |r.value.1| < |s|
  {
    if |s| == 0 then None
    else if s[0] == QuoteMark || s[0] == Backslash || s[0] == '/' then Some((s[0], s[1..]))
    else if s[0] == 'b' then Some((BackspaceChar, s[1..]))
    else if s[0] == 'f' then Some((FormFeedChar, s[1..]))
    else if s[0] == 'n' then Some(('\n', s[1..]))
    else if s[0] == 'r' then Some(('\r', s[1..]))
    else if s[0] == 't' then Some(('\t', s[1..]))
    else if s[0] == 'u' && |s| >= 5
         && IsHexDigit(s[1]) && IsHexDigit(s[2]) && IsHexDigit(s[3]) && IsHexDigit(s[4]) then
      var code := HexValue(s[1]) * 4096 + HexValue(s[2]) * 256 + HexValue(s[3]) * 16 + HexValue(s[4]);
      // a lone surrogate half is not a character
      if 0xD800 <= code < 0xE000 then None else Some((code as char, s[5..]))
    else None
  }

  function ConsChar(c: char, r: Parsed<string>): Parsed<string>
  {
    match r
    case None => None
    case Some((t, rest)) => Some(([c] + t, rest))
  }

  /** The characters of a string up to its closing quote; `s` is the text after the opening quote. */
  function ParseStringBody(s: string): (r: Parsed<string>)
    ensures r.Some? ==> |r.value.1| < |s|
  {
    if |s| == 0 then None
    else if s[0] == QuoteMark then Some(([], s[1..]))
    else if s[0] == Backslash then
      match Unescape(s[1..])
      case None => None
      case Some((c, tail)) => ConsChar(c, ParseStringBody(tail))
    else if (s[0] as int) < 0x20 then None   // control characters must be escaped
    else ConsChar(s[0], ParseStringBody(s[1..]))
  }

  function ParseValue(s: string): (r: Parsed<Json>)
    ensures r.Some? ==> |r.value.1| < |s|
    decreases |s|, 0
  {
    if |s| == 0 then None
    else if s[0] == 'n' then if |s| >= 4 && s[..4] == "null" then Some((JNull, s[4..])) else None
    else if s[0] == 't' then if |s| >= 4 && s[..4] == "true" then Some((JBool(true), s[4..])) else None
    else if s[0] == 'f' then if |s| >= 5 && s[..5] == "false" then Some((JBool(false), s[5..])) else None
    else if s[0] == '-' || IsDigit(s[0]) then
      match ParseInt(s)
      case None => None
      case Some((i, rest)) => Some((JInt(i), rest))
    else if s[0] == QuoteMark then
      match ParseStringBody(s[1..])
      case None => None
      case Some((t, rest)) => Some((JString(t), rest))
    else if s[0] == '[' then
      if |s| >= 2 && s[1] == ']' then Some((JArray([]), s[2..]))
      else
        match ParseElements(s[1..])
        case None => None
        case Some((es, rest)) => Some((JArray(es), rest))
    else if s[0] == '{' then
      if |s| >= 2 && s[1] == '}' then Some((JObject([]), s[2..]))
      else
        match ParseMembers(s[1..])
        case None => None
        case Some((ms, rest)) => Some((JObject(ms), rest))
    else None
  }

  /** One or more comma-separated values and the closing bracket. */
  function ParseElements(s: string): (r: Parsed<seq<Json>>)
    ensures r.Some? ==> |r.value.1| < |s|
    decreases |s|, 1
  {
    match ParseValue(s)
    case None => None
    case Some((v, rest)) =>
      if |rest| > 0 && rest[0] == ',' then
        match ParseElements(rest[1..])
        case None => None
        case Some((vs, rest')) => Some(([v] + vs, rest'))
      else if |rest| > 0 && rest[0] == ']' then Some(([v], rest[1..]))
      else None
  }

  /** One `"name":value` member. */
  function ParseMember(s: string): (r: Parsed<Member>)
    ensures r.Some? ==> |r.value.1| < |s|
    decreases |s|, 1
  {
    if |s| == 0 || s[0] != QuoteMark then None
    else
      match ParseStringBody(s[1..])
      case None => None
      case Some((name, afterName)) =>
        if |afterName| == 0 || afterName[0] != ':' then None
        else
          match ParseValue(afterName[1..])
          case None => None
          case Some((v, rest)) => Some((Member(name, v), rest))
  }

  /** One or more comma-separated members and the closing brace. */
  function ParseMembers(s: string): (r: Parsed<seq<Member>>)
    ensures r.Some? ==> |r.value.1| < |s|
    decreases |s|, 2
  {
    match ParseMember(s)
    case None => None
    case Some((m, rest)) =>
      if |rest| > 0 && rest[0] == ',' then
        match ParseMembers(rest[1..])
        case None => None
        case Some((ms, rest')) => Some(([m] + ms, rest'))
      else if |rest| > 0 && rest[0] == '}' then Some(([m], rest[1..]))
      else None
  }

  /** Text that can follow a value without being read as part of it. */
  predicate Delimited(rest: string)
  {
    |rest| == 0 || !IsDigit(rest[0])
  }

  lemma {:induction false} DigitRunOfDigits(ds: string, rest: string)
    requires forall i :: 0 <= i < |ds| ==> IsDigit(ds[i])
    requires Delimited(rest)
    ensures DigitRun(ds + rest) == |ds|
    decreases |ds|
  {
    if |ds| > 0 {
      assert (ds + rest)[1..] == ds[1..] + rest;
      DigitRunOfDigits(ds[1..], rest);
    }
  }

  lemma {:induction false} NatRoundTrip(n: nat, rest: string)
    requires Delimited(rest)
    ensures ParseNat(NatDigits(n) + rest) == Some((n, rest))
  {
    var ds := NatDigits(n);
    DigitRunOfDigits(ds, rest);
    assert (ds + rest)[..|ds|] == ds;
    assert (ds + rest)[|ds|..] == rest;
    DigitsValueOfNatDigits(n);
  }

  lemma {:induction false} ParseIntOfNegative(s: string, n: nat, rest: string)
    requires |s| > 0 && s[0] == '-' && ParseNat(s[1..]) == Some((n, rest))
    ensures ParseInt(s) == Some((-(n as int), rest))
  {
  }

  lemma {:induction false} ParseIntOfNatural(s: string, n: nat, rest: string)
    requires |s| > 0 && IsDigit(s[0]) && ParseNat(s) == Some((n, rest))
    ensures ParseInt(s) == Some((n as int, rest))
  {
  }

  lemma {:induction false} NegativeTextParses(n: nat, rest: string)
    requires Delimited(rest)
    ensures ParseInt("-" + NatDigits(n) + rest) == Some((-(n as int), rest))
  {
    var s := "-" + NatDigits(n) + rest;
    assert s[0] == '-' && s[1..] == NatDigits(n) + rest;
    NatRoundTrip(n, rest);
    ParseIntOfNegative(s, n, rest);
  }

  lemma {:induction false} NaturalTextParses(n: nat, rest: string)
    requires Delimited(rest)
    ensures ParseInt(NatDigits(n) + rest) == Some((n as int, rest))
  {
    var s := NatDigits(n) + rest;
    assert IsDigit(s[0]);
    NatRoundTrip(n, rest);
    ParseIntOfNatural(s, n, rest);
  }

  lemma {:induction false} IntTextParses(i: int, rest: string)
    requires Delimited(rest)
    ensures ParseInt(IntText(i) + rest) == Some((i, rest))
  {
    if i < 0 {
      NegativeTextParses(-i, rest);
    } else {
      NaturalTextParses(i, rest);
    }
  }

  lemma {:induction false} IntRoundTrip(i: int, rest: string)
    requires Delimited(rest)
    ensures ParseValue(Serialize(JInt(i)) + rest) == Some((JInt(i), rest))
  {
    var s := Serialize(JInt(i)) + rest;
    assert s[0] == '-' || IsDigit(s[0]);
    IntTextParses(i, rest);
  }

  lemma {:induction false} EscapeCharRoundTrip(c: char, tail: string)
    ensures ParseStringBody(EscapeChar(c) + tail) == ConsChar(c, ParseStringBody(tail))
  {
    var s := EscapeChar(c) + tail;
    if c == QuoteMark || c == Backslash || c == BackspaceChar || c == FormFeedChar
       || c == '\n' || c == '\r' || c == '\t' {
      assert s[1..][1..] == tail;
    } else if (c as int) < 0x20 {
      var hi, lo := (c as int) / 16, (c as int) % 16;
      HexValueOfHexDigit(hi);
      HexValueOfHexDigit(lo);
      assert s[1..][5..] == tail;
    } else {
      assert s[1..] == tail;
    }
  }

  lemma {:induction false} EscapeTextMore(t: string, rest: string)
    requires |t| > 0
    ensures Escape(t) + [QuoteMark] + rest == EscapeChar(t[0]) + (Escape(t[1..]) + [QuoteMark] + rest)
  {
  }

  lemma {:induction false} StringBodyRoundTrip(t: string, rest: string)
    ensures ParseStringBody(Escape(t) + [QuoteMark] + rest) == Some((t, rest))
    decreases |t|
  {
    if |t| == 0 {
      assert Escape(t) + [QuoteMark] + rest == [QuoteMark] + rest;
    } else {
      EscapeTextMore(t, rest);
      EscapeCharRoundTrip(t[0], Escape(t[1..]) + [QuoteMark] + rest);
      StringBodyRoundTrip(t[1..], rest);
      assert [t[0]] + t[1..] == t;
    }
  }

  lemma {:induction false} StringRoundTrip(t: string, rest: string)
    ensures ParseValue(Serialize(JString(t)) + rest) == Some((JString(t), rest))
  {
    var s := Serialize(JString(t)) + rest;
    assert s[0] == QuoteMark;
    assert s[1..] == Escape(t) + [QuoteMark] + rest;
    StringBodyRoundTrip(t, rest);
  }

  lemma {:induction false} ParseValueOfArray(s: string, es: seq<Json>, rest: string)
    requires |s| >= 2 && s[0] == '[' && s[1] != ']' && ParseElements(s[1..]) == Some((es, rest))
    ensures ParseValue(s) == Some((JArray(es), rest))
  {
  }

  lemma {:induction false} ParseValueOfObject(s: string, ms: seq<Member>, rest: string)
    requires |s| >= 2 && s[0] == '{' && s[1] != '}' && ParseMembers(s[1..]) == Some((ms, rest))
    ensures ParseValue(s) == Some((JObject(ms), rest))
  {
  }

  lemma {:induction false} ContainerShape(open: char, body: string, close: char, rest: string)
    requires |body| > 0
    ensures var s := [open] + body + [close] + rest;
            |s| >= 2 && s[0] == open && s[1] == body[0] && s[1..] == body + [close] + rest
  {
  }

  lemma {:induction false} ArrayRoundTrip(es: seq<Json>, rest: string)
    ensures ParseValue(Serialize(JArray(es)) + rest) == Some((JArray(es), rest))
    decreases es, 1
  {
    var s := Serialize(JArray(es)) + rest;
    if |es| == 0 {
      assert SerializeElements(es) == "";
      assert s == ['[', ']'] + rest;
      assert s[0] == '[' && s[1] == ']' && s[2..] == rest;
    } else {
      ContainerShape('[', SerializeElements(es), ']', rest);
      ElementsRoundTrip(es, rest);
      ParseValueOfArray(s, es, rest);
    }
  }

  lemma {:induction false} ObjectRoundTrip(ms: seq<Member>, rest: string)
    ensures ParseValue(Serialize(JObject(ms)) + rest) == Some((JObject(ms), rest))
    decreases ms, 1
  {
    var s := Serialize(JObject(ms)) + rest;
    if |ms| == 0 {
      assert SerializeMembers(ms) == "";
      assert s == ['{', '}'] + rest;
      assert s[0] == '{' && s[1] == '}' && s[2..] == rest;
    } else {
      ContainerShape('{', SerializeMembers(ms), '}', rest);
      MembersRoundTrip(ms, rest);
      ParseValueOfObject(s, ms, rest);
    }
  }

  /** Serializing and then parsing gives back the value and leaves what followed it. */
  lemma {:induction false} ValueRoundTrip(v: Json, rest: string)
    requires Delimited(rest)
    ensures ParseValue(Serialize(v) + rest) == Some((v, rest))
    decreases v, 2
  {
    var s := Serialize(v) + rest;
    match v
    case JNull =>
      assert s[..4] == "null" && s[4..] == rest;
    case JBool(b) =>
      if b {
        assert s[..4] == "true" && s[4..] == rest;
      } else {
        assert s[..5] == "false" && s[5..] == rest;
      }
    case JInt(i) =>
      IntRoundTrip(i, rest);
    case JString(t) =>
      StringRoundTrip(t, rest);
    case JArray(es) =>
      ArrayRoundTrip(es, rest);
    case JObject(ms) =>
      ObjectRoundTrip(ms, rest);
  }

  lemma {:induction false} ParseElementsLast(s: string, v: Json, rest: string)
    requires ParseValue(s) == Some((v, "]" + rest))
    ensures ParseElements(s) == Some(([v], rest))
  {
    assert ("]" + rest)[1..] == rest;
  }

  lemma {:induction false} ParseElementsMore(s: string, v: Json, tail: string, vs: seq<Json>, rest: string)
    requires ParseValue(s) == Some((v, "," + tail))
    requires ParseElements(tail) == Some((vs, rest))
    ensures ParseElements(s) == Some(([v] + vs, rest))
  {
    assert ("," + tail)[1..] == tail;
  }

  lemma {:induction false} ElementsTextLast(es: seq<Json>, rest: string)
    requires |es| == 1
    ensures SerializeElements(es) + "]" + rest == Serialize(es[0]) + ("]" + rest)
  {
  }

  lemma {:induction false} ElementsTextMore(es: seq<Json>, rest: string)
    requires |es| > 1
    ensures SerializeElements(es) + "]" + rest
            == Serialize(es[0]) + ("," + (SerializeElements(es[1..]) + "]" + rest))
  {
    assert SerializeElements(es) == Serialize(es[0]) + "," + SerializeElements(es[1..]);
    Regroup(Serialize(es[0]), ",", SerializeElements(es[1..]), "]", rest);
  }

  lemma {:induction false} ElementsRoundTrip(es: seq<Json>, rest: string)
    requires |es| > 0
    ensures ParseElements(SerializeElements(es) + "]" + rest) == Some((es, rest))
    decreases es, 0
  {
    if |es| == 1 {
      ElementsTextLast(es, rest);
      ValueRoundTrip(es[0], "]" + rest);
      ParseElementsLast(SerializeElements(es) + "]" + rest, es[0], rest);
      assert [es[0]] == es;
    } else {
      var tail := SerializeElements(es[1..]) + "]" + rest;
      ElementsTextMore(es, rest);
      ValueRoundTrip(es[0], "," + tail);
      ElementsRoundTrip(es[1..], rest);
      ParseElementsMore(SerializeElements(es) + "]" + rest, es[0], tail, es[1..], rest);
      assert [es[0]] + es[1..] == es;
    }
  }

  lemma {:induction false} ParseMemberOf(s: string, name: string, afterName: string, v: Json, rest: string)
    requires |s| > 0 && s[0] == QuoteMark && ParseStringBody(s[1..]) == Some((name, afterName))
    requires |afterName| > 0 && afterName[0] == ':' && ParseValue(afterName[1..]) == Some((v, rest))
    ensures ParseMember(s) == Some((Member(name, v), rest))
  {
  }

  lemma {:induction false} MemberTextShape(name: string, valueText: string, rest: string)
    ensures var s := Quote(name) + ":" + valueText + rest;
            var afterName := ":" + valueText + rest;
            && |s| > 0 && s[0] == QuoteMark && s[1..] == Escape(name) + [QuoteMark] + afterName
            && |afterName| > 0 && afterName[0] == ':' && afterName[1..] == valueText + rest
  {
    var afterName := ":" + valueText + rest;
    assert Quote(name) + ":" + valueText + rest == [QuoteMark] + (Escape(name) + [QuoteMark] + afterName);
  }

  /** A quoted name, a colon and text that parses as a value parse as a member. */
  lemma {:induction false} MemberTextParses(name: string, valueText: string, v: Json, rest: string)
    requires ParseValue(valueText + rest) == Some((v, rest))
    ensures ParseMember(Quote(name) + ":" + valueText + rest) == Some((Member(name, v), rest))
  {
    MemberTextShape(name, valueText, rest);
    StringBodyRoundTrip(name, ":" + valueText + rest);
    ParseMemberOf(Quote(name) + ":" + valueText + rest, name, ":" + valueText + rest, v, rest);
  }

  lemma {:induction false} MemberRoundTrip(m: Member, rest: string)
    requires Delimited(rest)
    ensures ParseMember(SerializeMember(m) + rest) == Some((m, rest))
    decreases m, 0
  {
    ValueRoundTrip(m.value, rest);
    MemberTextParses(m.name, Serialize(m.value), m.value, rest);
  }

  lemma {:induction false} ParseMembersLast(s: string, m: Member, rest: string)
    requires ParseMember(s) == Some((m, "}" + rest))
    ensures ParseMembers(s) == Some(([m], rest))
  {
    assert ("}" + rest)[1..] == rest;
  }

  lemma {:induction false} ParseMembersMore(s: string, m: Member, tail: string, ms: seq<Member>, rest: string)
    requires ParseMember(s) == Some((m, "," + tail))
    requires ParseMembers(tail) == Some((ms, rest))
    ensures ParseMembers(s) == Some(([m] + ms, rest))
  {
    assert ("," + tail)[1..] == tail;
  }

  lemma {:induction false} MembersTextLast(ms: seq<Member>, rest: string)
    requires |ms| == 1
    ensures SerializeMembers(ms) + "}" + rest == SerializeMember(ms[0]) + ("}" + rest)
  {
  }

  lemma {:induction false} Regroup(a: string, sep: string, b: string, close: string, rest: string)
    ensures a + sep + b + close + rest == a + (sep + (b + close + rest))
  {
  }

  lemma {:induction false} MembersTextMore(ms: seq<Member>, rest: string)
    requires |ms| > 1
    ensures SerializeMembers(ms) + "}" + rest
            == SerializeMember(ms[0]) + ("," + (SerializeMembers(ms[1..]) + "}" + rest))
  {
    assert SerializeMembers(ms) == SerializeMember(ms[0]) + "," + SerializeMembers(ms[1..]);
    Regroup(SerializeMember(ms[0]), ",", SerializeMembers(ms[1..]), "}", rest);
  }

  lemma {:induction false} MembersRoundTrip(ms: seq<Member>, rest: string)
    requires |ms| > 0
    ensures ParseMembers(SerializeMembers(ms) + "}" + rest) == Some((ms, rest))
    decreases ms, 0
  {
    if |ms| == 1 {
      MembersTextLast(ms, rest);
      MemberRoundTrip(ms[0], "}" + rest);
      ParseMembersLast(SerializeMembers(ms) + "}" + rest, ms[0], rest);
      assert [ms[0]] == ms;
    } else {
      var tail := SerializeMembers(ms[1..]) + "}" + rest;
      MembersTextMore(ms, rest);
      MemberRoundTrip(ms[0], "," + tail);
      MembersRoundTrip(ms[1..], rest);
      ParseMembersMore(SerializeMembers(ms) + "}" + rest, ms[0], tail, ms[1..], rest);
      assert [ms[0]] + ms[1..] == ms;
    }
  }

  /** Different values never serialize to the same text. */
  lemma {:induction false} SerializeInjective(v: Json, w: Json)
    requires Serialize(v) == Serialize(w)
    ensures v == w
  {
    ValueRoundTrip(v, "");
    ValueRoundTrip(w, "");
    assert Serialize(v) + "" == Serialize(v);
    assert Serialize(w) + "" == Serialize(w);
  }
}
