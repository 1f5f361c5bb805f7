/** Facts about literal strings used by the key examples below, kept in a module
    of their own so that each comparison is checked character by character in a
    small context. */
module ExampleText {

  lemma TestMethodPrefix()
    ensures "TestClass" + "#" + "testMethod" + "(" == "TestClass#testMethod("
  {
  }

  lemma OneStringArray()
    ensures "[" + (['"'] + "test" + ['"']) + "]" == "[\"test\"]"
  {
  }

  lemma OneStringKey()
    ensures "TestClass#testMethod(" + "[\"test\"]" + ")" == "TestClass#testMethod([\"test\"])"
  {
  }

  lemma QuotedArg2Literal()
    ensures ['"'] + "arg2" + ['"'] == "\"arg2\""
  {
  }

  lemma KeyValueText()
    ensures "{" + ((['"'] + "key" + ['"']) + ":" + (['"'] + "value" + ['"'])) + "}" == "{\"key\":\"value\"}"
  {
  }

  lemma MixedArray()
    ensures "[" + ("1" + "," + ("\"arg2\"" + "," + "{\"key\":\"value\"}")) + "]" == "[1,\"arg2\",{\"key\":\"value\"}]"
  {
  }

  lemma MixedKey()
    ensures "TestClass#testMethod(" + "[1,\"arg2\",{\"key\":\"value\"}]" + ")"
            == "TestClass#testMethod([1,\"arg2\",{\"key\":\"value\"}])"
  {
  }
}

/** Example cache keys for calls of `TestClass.testMethod`, computed from the
    model of `defaultGenerateKey`. */
module KeyExamples {
  import opened Json
  import opened Keys
  import ExampleText

  predicate Plain(s: string)
  {
    forall i :: 0 <= i < |s| ==> 'a' <= s[i] <= 'z' || '0' <= s[i] <= '9'
  }

  lemma {:induction false} EscapeOfPlain(s: string)
    requires Plain(s)
    ensures Escape(s) == s
    decreases |s|
  {
    if |s| > 0 {
      EscapeOfPlain(s[1..]);
      assert [s[0]] + s[1..] == s;
    }
  }

  lemma QuoteOfPlain(s: string)
    requires Plain(s)
    ensures Quote(s) == ['"'] + s + ['"']
  {
    EscapeOfPlain(s);
  }

  lemma ArrayOfOne(a: Json, ta: string)
    requires Serialize(a) == ta
    ensures Serialize(JArray([a])) == "[" + ta + "]"
  {
  }

  lemma ArrayOfThree(a: Json, b: Json, c: Json, ta: string, tb: string, tc: string)
    requires Serialize(a) == ta && Serialize(b) == tb && Serialize(c) == tc
    ensures Serialize(JArray([a, b, c])) == "[" + (ta + "," + (tb + "," + tc)) + "]"
  {
    assert [a, b, c][1..] == [b, c];
    assert [b, c][1..] == [c];
    assert SerializeElements([b, c]) == tb + "," + tc;
    assert SerializeElements([a, b, c]) == ta + "," + (tb + "," + tc);
  }

  lemma ObjectOfOne(name: string, v: Json, tv: string)
    requires Serialize(v) == tv
    ensures Serialize(JObject([Member(name, v)])) == "{" + (Quote(name) + ":" + tv) + "}"
  {
    assert SerializeMembers([Member(name, v)]) == Quote(name) + ":" + tv;
  }

  lemma KeyText(className: string, methodName: string, args: seq<Json>, serialized: string)
    requires Serialize(JArray(args)) == serialized
    ensures DefaultKey(className, methodName, args) == className + "#" + methodName + "(" + serialized + ")"
  {
  }

  lemma OneStringText()
    ensures Serialize(JArray([JString("test")])) == "[\"test\"]"
  {
    QuoteOfPlain("test");
    ArrayOfOne(JString("test"), ['"'] + "test" + ['"']);
    ExampleText.OneStringArray();
  }

  /** An example key: `testMethod("test")` on `TestClass`. */
  lemma ExampleKeyOneString()
    ensures DefaultKey("TestClass", "testMethod", [JString("test")])
            == "TestClass#testMethod([\"test\"])"
  {
    OneStringText();
    KeyText("TestClass", "testMethod", [JString("test")], "[\"test\"]");
    ExampleText.TestMethodPrefix();
    ExampleText.OneStringKey();
  }

  lemma Arg2Text()
    ensures Serialize(JString("arg2")) == "\"arg2\""
  {
    QuoteOfPlain("arg2");
    ExampleText.QuotedArg2Literal();
  }

  lemma KeyValueObjectText()
    ensures Serialize(JObject([Member("key", JString("value"))])) == "{\"key\":\"value\"}"
  {
    QuoteOfPlain("key");
    QuoteOfPlain("value");
    ObjectOfOne("key", JString("value"), ['"'] + "value" + ['"']);
    ExampleText.KeyValueText();
  }

  lemma MixedArgumentsText()
    ensures Serialize(JArray([JInt(1), JString("arg2"), JObject([Member("key", JString("value"))])]))
            == "[1,\"arg2\",{\"key\":\"value\"}]"
  {
    assert Serialize(JInt(1)) == "1";
    Arg2Text();
    KeyValueObjectText();
    ArrayOfThree(JInt(1), JString("arg2"), JObject([Member("key", JString("value"))]),
                 "1", "\"arg2\"", "{\"key\":\"value\"}");
    ExampleText.MixedArray();
  }

  /** An example key: `testMethod(1, "arg2", {key: "value"})` on `TestClass`. */
  lemma ExampleKeyMixed()
    ensures DefaultKey("TestClass", "testMethod",
                       [JInt(1), JString("arg2"), JObject([Member("key", JString("value"))])])
            == "TestClass#testMethod([1,\"arg2\",{\"key\":\"value\"}])"
  {
    MixedArgumentsText();
    KeyText("TestClass", "testMethod", [JInt(1), JString("arg2"), JObject([Member("key", JString("value"))])],
            "[1,\"arg2\",{\"key\":\"value\"}]");
    ExampleText.TestMethodPrefix();
    ExampleText.MixedKey();
  }
}
