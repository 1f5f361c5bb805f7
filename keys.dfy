/** Cache keys: the default key deriver of packages/core/src/index.ts and the
    choice between it and a caller-supplied `generateKey`. */
module Keys {
  import opened Wrappers
  import opened Json
  import opened JsonParse

  /** The signature of `generateKey`: class name, method name, arguments. */
  type KeyDeriver = (string, string, seq<Json>) -> string

  /** `defaultGenerateKey`: `className#methodName(JSON.stringify(args))`. */
  function DefaultKey(className: string, methodName: string, args: seq<Json>): string
  {
    className + "#" + methodName + "(" + Serialize(JArray(args)) + ")"
  }

  /** `options.generateKey || defaultGenerateKey`, applied to one call. */
  function DeriveKey(generateKey: Option<KeyDeriver>, className: string, methodName: string, args: seq<Json>): string
  {
    match generateKey
    case Some(g) => g(className, methodName, args)
    case None => DefaultKey(className, methodName, args)
  }

  /** The text before the first `sep` of `s` and the text after it. */
  function SplitAt(s: string, sep: char): (r: Option<(string, string)>)
    ensures r.Some? ==> sep !in r.value.0 && s == r.value.0 + [sep] + r.value.1
    ensures r.None? <==> sep !in s
  {
    if |s| == 0 then None
    else if s[0] == sep then Some(([], s[1..]))
    else
      match SplitAt(s[1..], sep)
      case None => None
      case Some((before, after)) => Some(([s[0]] + before, after))
  }

  lemma {:induction false} SplitAtFirst(before: string, sep: char, after: string)
    requires sep !in before
    ensures SplitAt(before + [sep] + after, sep) == Some((before, after))
    decreases |before|
  {
    var s := before + [sep] + after;
    if |before| > 0 {
      assert s[0] == before[0] && s[1..] == before[1..] + [sep] + after;
      SplitAtFirst(before[1..], sep, after);
      assert [before[0]] + before[1..] == before;
    } else {
      assert s == [sep] + after;
    }
  }

  /** Reads a default key back into class name, method name and arguments. */
  function SplitKey(key: string): Option<(string, string, seq<Json>)>
  {
    match SplitAt(key, '#')
    case None => None
    case Some((className, afterHash)) =>
      match SplitAt(afterHash, '(')
      case None => None
      case Some((methodName, serialized)) =>
        match ParseValue(serialized)
        case Some((JArray(args), rest)) => if rest == ")" then Some((className, methodName, args)) else None
        case _ => None
  }

  /** A default key loses nothing: when the class name has no `#` and the method
      name no `(`, the key gives back all three of its inputs. */
  lemma SplitDefaultKey(className: string, methodName: string, args: seq<Json>)
    requires '#' !in className && '(' !in methodName
    ensures SplitKey(DefaultKey(className, methodName, args)) == Some((className, methodName, args))
  {
    var serialized := Serialize(JArray(args)) + ")";
    var afterHash := methodName + "(" + serialized;
    assert DefaultKey(className, methodName, args) == className + ['#'] + afterHash;
    SplitAtFirst(className, '#', afterHash);
    assert afterHash == methodName + ['('] + serialized;
    SplitAtFirst(methodName, '(', serialized);
    ValueRoundTrip(JArray(args), ")");
  }

  /** Under the same naming assumption, distinct calls get distinct default keys. */
  lemma DefaultKeyInjective(c1: string, m1: string, a1: seq<Json>, c2: string, m2: string, a2: seq<Json>)
    requires '#' !in c1 && '(' !in m1 && '#' !in c2 && '(' !in m2
    requires DefaultKey(c1, m1, a1) == DefaultKey(c2, m2, a2)
    ensures c1 == c2 && m1 == m2 && a1 == a2
  {
    SplitDefaultKey(c1, m1, a1);
    SplitDefaultKey(c2, m2, a2);
  }

  /** Within one class, whatever its name, distinct calls of methods whose names
      have no `(` get distinct default keys. */
  lemma SameClassKeyInjective(className: string, m1: string, a1: seq<Json>, m2: string, a2: seq<Json>)
    requires '(' !in m1 && '(' !in m2
    requires DefaultKey(className, m1, a1) == DefaultKey(className, m2, a2)
    ensures m1 == m2 && a1 == a2
  {
    var prefix := className + "#";
    var s1, s2 := Serialize(JArray(a1)) + ")", Serialize(JArray(a2)) + ")";
    var t1, t2 := m1 + ['('] + s1, m2 + ['('] + s2;
    assert DefaultKey(className, m1, a1) == prefix + t1;
    assert DefaultKey(className, m2, a2) == prefix + t2;
    assert (prefix + t1)[|prefix|..] == t1;
    assert (prefix + t2)[|prefix|..] == t2;
    SplitAtFirst(m1, '(', s1);
    SplitAtFirst(m2, '(', s2);
    assert s1[..|s1| - 1] == Serialize(JArray(a1));
    assert s2[..|s2| - 1] == Serialize(JArray(a2));
    SerializeInjective(JArray(a1), JArray(a2));
  }

  /** For one class and method, whatever their names, the key determines the arguments. */
  lemma ArgumentsDetermineKey(className: string, methodName: string, a: seq<Json>, b: seq<Json>)
    requires DefaultKey(className, methodName, a) == DefaultKey(className, methodName, b)
    ensures a == b
  {
    var prefix := className + "#" + methodName + "(";
    var ka, kb := DefaultKey(className, methodName, a), DefaultKey(className, methodName, b);
    assert ka == prefix + Serialize(JArray(a)) + ")";
    assert kb == prefix + Serialize(JArray(b)) + ")";
    assert ka[|prefix|..|ka| - 1] == Serialize(JArray(a));
    assert kb[|prefix|..|kb| - 1] == Serialize(JArray(b));
    SerializeInjective(JArray(a), JArray(b));
  }

  /** Without the naming assumption two different (class, method) pairs can share a key. */
  lemma SeparatorInNameCollides()
    ensures DefaultKey("A#b", "c", []) == DefaultKey("A", "b#c", [])
  {
    assert Serialize(JArray([])) == "[]";
  }

  /** Structurally equal objects whose members were inserted in different orders
      get different keys. */
  lemma InsertionOrderMatters(className: string, methodName: string)
    ensures var ab := JObject([Member("a", JInt(1)), Member("b", JInt(2))]);
            var ba := JObject([Member("b", JInt(2)), Member("a", JInt(1))]);
            DefaultKey(className, methodName, [ab]) != DefaultKey(className, methodName, [ba])
  {
    var ab := JObject([Member("a", JInt(1)), Member("b", JInt(2))]);
    var ba := JObject([Member("b", JInt(2)), Member("a", JInt(1))]);
    if DefaultKey(className, methodName, [ab]) == DefaultKey(className, methodName, [ba]) {
      ArgumentsDetermineKey(className, methodName, [ab], [ba]);
    }
  }

}
