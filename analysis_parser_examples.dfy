/**
 * The inputs listed in the example block at the end of `analysis_parser.py`,
 * read through the model one construct at a time.
 */
module AnalysisParserExamples {
  import opened Common
  import opened PyStr
  import opened Json
  import opened AnalysisParser

  /** The reply with trailing commas from the example block. */
  const TrailingCommaText: string := "{\"key\": \"value\", \"list\": [1, 2,], }"

  /** What the bracket fallback hands to `json.loads` after the substitution. */
  const CleanedText: string := "{\"key\": \"value\", \"list\": [1, 2]}"

  /** The object both spell. */
  const ExpectedReport: Json := Obj([("key", Str("value")), ("list", Arr([Num("1"), Num("2")]))])

  // --- the substitution, piece by piece

  /** A stretch without commas passes through the substitution unchanged. */
  lemma {:induction false} StripNoComma(a: string, b: string)
    requires ',' !in a
    ensures StripTrailingCommas(a + b) == a + StripTrailingCommas(b)
  {
    if a != [] {
      var s := a + b;
      assert s[0] == a[0];
      assert s[1..] == a[1..] + b;
      assert forall m :: 0 <= m < |a[1..]| ==> a[1..][m] == a[m + 1];
      StripNoComma(a[1..], b);
      assert StripTrailingCommas(s) == [a[0]] + StripTrailingCommas(s[1..]);
      assert [a[0]] + (a[1..] + StripTrailingCommas(b)) == a + StripTrailingCommas(b);
    } else {
      assert a + b == b;
    }
  }

  /** A comma followed by one space and a character that closes nothing is kept, with both. */
  lemma StripKeepsSpacedComma(c: char, b: string)
    requires !IsSpace(c) && c != '}' && c != ']' && c != ','
    ensures StripTrailingCommas([',', ' ', c] + b) == [',', ' ', c] + StripTrailingCommas(b)
  {
    var s := [',', ' ', c] + b;
    assert s[2] == c;
    assert SpaceEnd(s, 1) == 2;
    assert s[1..] == [' ', c] + b;
    StripNoComma([' ', c], b);
  }

  /** A comma directly before `}` or `]` goes. */
  lemma StripDropsBareComma(c: char, b: string)
    requires c == '}' || c == ']'
    ensures StripTrailingCommas([',', c] + b) == [c] + StripTrailingCommas(b)
  {
    var s := [',', c] + b;
    assert s[1] == c;
    assert SpaceEnd(s, 1) == 1;
    assert s[2..] == b;
  }

  /** A comma, one space and then `}` or `]`: the comma and the space go. */
  lemma StripDropsSpacedComma(c: char, b: string)
    requires c == '}' || c == ']'
    ensures StripTrailingCommas([',', ' ', c] + b) == [c] + StripTrailingCommas(b)
  {
    var s := [',', ' ', c] + b;
    assert s[2] == c;
    assert SpaceEnd(s, 1) == 2;
    assert s[3..] == b;
  }

  /**
   * The shape of the reply: two comma-free stretches `p` and `q`, then the
   * commas of `, "q, 2,], }"`. The two commas followed by text are kept and
   * the two followed by a closer go.
   */
  lemma CleanupShape(p: string, q: string)
    requires ',' !in p && ',' !in q
    ensures StripTrailingCommas(p + ([',', ' ', '"'] + (q + ([',', ' ', '2'] + ([',', ']'] + [',', ' ', '}'])))))
            == p + ([',', ' ', '"'] + (q + ([',', ' ', '2'] + [']', '}'])))
  {
    var tail3 := [',', ' ', '}'];
    var tail2 := [',', ']'] + tail3;
    var tail1 := [',', ' ', '2'] + tail2;
    StripNoComma(p, [',', ' ', '"'] + (q + tail1));
    StripKeepsSpacedComma('"', q + tail1);
    StripNoComma(q, tail1);
    StripKeepsSpacedComma('2', tail2);
    StripDropsBareComma(']', tail3);
    assert tail3 == [',', ' ', '}'] + [];
    StripDropsSpacedComma('}', []);
  }

  /** The comma-free stretches of the reply. */
  const ReplyKeyPart: string := "{\"key\": \"value\""
  const ReplyListPart: string := "list\": [1"

  /** The cleaned text, cut into the same pieces. */
  lemma CleanedTextPieces()
    ensures CleanedText == ReplyKeyPart + ([',', ' ', '"'] + (ReplyListPart + ([',', ' ', '2'] + [']', '}'])))
  {
  }

  /** The substitution turns the trailing-comma reply into valid JSON. */
  lemma CleanupOfTrailingCommaText()
    ensures StripTrailingCommas(TrailingCommaText) == CleanedText
  {
    assert TrailingCommaText
           == ReplyKeyPart + ([',', ' ', '"'] + (ReplyListPart + ([',', ' ', '2'] + ([',', ']'] + [',', ' ', '}']))));
    CleanedTextPieces();
    CleanupShape(ReplyKeyPart, ReplyListPart);
  }

  // --- json.loads, piece by piece

  /** A closing bracket cannot start a value. */
  lemma CloserIsNoValue(more: string)
    ensures ParseValue("]" + more) == None
  {
    var t := "]" + more;
    SkipWsOver([], t);
    assert [] + t == t;
    assert t[0] == ']';
    assert !StartsWith(t, "-Infinity") by { assert t[0] != "-Infinity"[0]; }
    assert IntPartLen(t) == 0;
  }

  /** Both texts open an object whose first key is `"key"`. */
  lemma ReadObjectStart(tail: string)
    ensures ParseValue("{\"key\": \"value\", \"list\":" + tail)
            == ParseMembers("\"key\": \"value\", \"list\":" + tail, [])
  {
    var body := "\"key\": \"value\", \"list\":" + tail;
    assert "{\"key\": \"value\", \"list\":" + tail == "" + "{" + body;
    ParseValueObject("", body);
    ParseObjectMembers("", body);
    assert "" + body == body;
  }

  /** The first key is read up to its colon. */
  lemma ReadFirstKey(tail: string)
    ensures ParseMembers("\"key\": \"value\", \"list\":" + tail, [])
            == ParseMemberValue(" \"value\", \"list\":" + tail, "key", [])
  {
    var v1 := " \"value\", \"list\":" + tail;
    assert "\"key\": \"value\", \"list\":" + tail == "" + "\"" + "key" + "\"" + "" + ":" + v1;
    ParseMembersKey("", "key", "", v1, []);
  }

  /** The first member is `"key": "value"`, and a comma follows it. */
  lemma ReadFirstValue(tail: string)
    ensures ParseMemberValue(" \"value\", \"list\":" + tail, "key", [])
            == ParseMembers(" \"list\":" + tail, [("key", Str("value"))])
  {
    var v1 := " \"value\", \"list\":" + tail;
    var m2 := " \"list\":" + tail;
    assert v1 == " " + "\"" + "value" + "\"" + ("" + "," + m2);
    ParseValuePlainString(" ", "value", "" + "," + m2);
    ParseMemberValueNext(v1, "key", [], Str("value"), "", m2);
    assert [] + [("key", Str("value"))] == [("key", Str("value"))];
  }

  /** The second key is read up to its colon. */
  lemma ReadSecondKey(tail: string)
    ensures ParseMembers(" \"list\":" + tail, [("key", Str("value"))])
            == ParseMemberValue(tail, "list", [("key", Str("value"))])
  {
    assert " \"list\":" + tail == " " + "\"" + "list" + "\"" + "" + ":" + tail;
    ParseMembersKey(" ", "list", "", tail, [("key", Str("value"))]);
  }

  /** The opening the two texts share: the object, its first member and the second key. */
  lemma ReadOpening(tail: string)
    ensures ParseValue("{\"key\": \"value\", \"list\":" + tail)
            == ParseMemberValue(tail, "list", [("key", Str("value"))])
  {
    ReadObjectStart(tail);
    ReadFirstKey(tail);
    ReadFirstValue(tail);
    ReadSecondKey(tail);
  }

  /** Both texts' second member is an array. */
  lemma ReadArrayStart(more: string)
    ensures ParseValue(" [1," + more) == ParseElements("1," + more, [])
  {
    var e1 := "1," + more;
    assert " [1," + more == " " + "[" + e1;
    ParseValueArray(" ", e1);
    ParseArrayElements("", e1);
    assert "" + e1 == e1;
  }

  /** The array's first element is `1`, and a comma follows it. */
  lemma ReadFirstElement(more: string)
    ensures ParseElements("1," + more, []) == ParseElements(more, [Num("1")])
  {
    var e1 := "1," + more;
    assert e1 == "" + ['1'] + ("" + "," + more);
    ParseValueDigit("", '1', "" + "," + more);
    ParseElementsNext(e1, [], Num("1"), "", more);
    assert [] + [Num("1")] == [Num("1")];
  }

  /** In the cleaned text, `2` is the last element. */
  lemma ReadCleanedLastElement()
    ensures ParseElements(" 2]}", [Num("1")]) == Some((Arr([Num("1"), Num("2")]), "}"))
  {
    assert " 2]}" == " " + ['2'] + "]}";
    ParseValueDigit(" ", '2', "]}");
    assert "]}" == "" + "]" + "}";
    ParseElementsLast(" 2]}", [Num("1")], Num("2"), "", "}");
    assert [Num("1")] + [Num("2")] == [Num("1"), Num("2")];
  }

  /** The cleaned text's array is `[1, 2]`. */
  lemma ReadCleanedArray()
    ensures ParseValue(" [1, 2]}") == Some((Arr([Num("1"), Num("2")]), "}"))
  {
    ReadArrayStart(" 2]}");
    ReadFirstElement(" 2]}");
    ReadCleanedLastElement();
    assert " [1," + " 2]}" == " [1, 2]}";
  }

  /** In the cleaned text, `}` closes the object after the array. */
  lemma ReadCleanedRest()
    ensures ParseMemberValue(" [1, 2]}", "list", [("key", Str("value"))]) == Some((ExpectedReport, ""))
  {
    var arr := Arr([Num("1"), Num("2")]);
    ReadCleanedArray();
    assert "}" == "" + "}" + "";
    ParseMemberValueLast(" [1, 2]}", "list", [("key", Str("value"))], arr, "", "");
    assert [("key", Str("value"))] + [("list", arr)] == ExpectedReport.members;
  }

  /** The cleaned text parses to the expected object. */
  lemma LoadsCleanedText()
    ensures Loads(CleanedText) == Some(ExpectedReport)
  {
    assert CleanedText == "{\"key\": \"value\", \"list\":" + " [1, 2]}";
    ReadOpening(" [1, 2]}");
    ReadCleanedRest();
    LoadsValue(CleanedText, ExpectedReport, "");
  }

  /** A comma after `2` that `]` follows leaves `]` where the next element should start. */
  lemma ElementBeforeCloser(more: string)
    ensures ParseElements(" 2,]" + more, [Num("1")]) == None
  {
    var rest := "" + "," + ("]" + more);
    assert " 2,]" + more == " " + ['2'] + rest;
    ParseValueDigit(" ", '2', rest);
    ParseElementsNext(" 2,]" + more, [Num("1")], Num("2"), "", "]" + more);
    CloserIsNoValue(more);
  }

  /** In the reply, the array's last element is followed by `,]`. */
  lemma ReadRawLastElement()
    ensures ParseElements(" 2,], }", [Num("1")]) == None
  {
    assert " 2,], }" == " 2,]" + ", }";
    ElementBeforeCloser(", }");
  }

  /** The reply's array does not parse, so neither does the member holding it. */
  lemma ReadRawRest()
    ensures ParseMemberValue(" [1, 2,], }", "list", [("key", Str("value"))]) == None
  {
    ReadArrayStart(" 2,], }");
    ReadFirstElement(" 2,], }");
    ReadRawLastElement();
    assert " [1," + " 2,], }" == " [1, 2,], }";
  }

  /** The reply with trailing commas does not parse as a whole. */
  lemma TrailingCommaTextDoesNotLoad()
    ensures Loads(TrailingCommaText) == None
  {
    assert TrailingCommaText == "{\"key\": \"value\", \"list\":" + " [1, 2,], }";
    ReadOpening(" [1, 2,], }");
    ReadRawRest();
  }

  /** The reply has no backtick, so no fenced block. */
  lemma TrailingCommaTextHasNoFence()
    ensures FenceMatch(TrailingCommaText).None?
  {
    NoBacktickNoFence(TrailingCommaText);
  }

  /** The reply opens with `{` and closes with `}`. */
  lemma TrailingCommaTextBraces()
    ensures FindChar(TrailingCommaText, '{') == 0
    ensures RFindChar(TrailingCommaText, '}') == |TrailingCommaText| - 1
  {
  }

  /**
   * The example reply with trailing commas, `{"key": "value", "list": [1, 2,], }`,
   * is recovered through the bracket fallback as `{"key": "value", "list": [1, 2]}`.
   */
  lemma TrailingCommaExample()
    ensures Extract(TrailingCommaText).route == BracketSpan(0, |TrailingCommaText|)
    ensures ParseGeminiResponse(TrailingCommaText) == Some(ExpectedReport)
  {
    TrailingCommaTextDoesNotLoad();
    TrailingCommaTextHasNoFence();
    TrailingCommaTextBraces();
    assert TrailingCommaText[0..|TrailingCommaText|] == TrailingCommaText;
    CleanupOfTrailingCommaText();
    LoadsCleanedText();
  }

  /** A reply that parses as a whole is returned as it is, even when it is an array and not an object. */
  lemma DirectArrayExample()
    ensures Extract("[1]").route == Direct
    ensures ParseGeminiResponse("[1]") == Some(Arr([Num("1")]))
  {
    assert "[1]" == "" + "[" + "1]";
    ParseValueArray("", "1]");
    ParseArrayElements("", "1]");
    assert "" + "1]" == "1]";
    assert "1]" == "" + ['1'] + "]";
    ParseValueDigit("", '1', "]");
    assert "]" == "" + "]" + "";
    ParseElementsLast("1]", [], Num("1"), "", "");
    assert [] + [Num("1")] == [Num("1")];
    LoadsValue("[1]", Arr([Num("1")]), "");
  }
}
