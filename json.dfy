/**
 * The value space of Python's `json.loads` and a parser for it.
 *
 * The parser follows the C scanner of Python's `json` module with its
 * default settings: whitespace is only space, tab, newline and carriage
 * return; strings reject raw control characters; numbers follow
 * `-?(0|[1-9][0-9]*)(\.[0-9]+)?([eE][-+]?[0-9]+)?` and also `NaN`,
 * `Infinity` and `-Infinity`; an object keeps every key/value pair in
 * source order (a Python dict keeps the last value of a repeated key,
 * which `Get` reproduces); anything but whitespace after the value is an
 * error ("Extra data").
 */
module Json {
  import opened Common
  import opened PyStr

  /** A decoded JSON value. A number keeps its lexeme (Python turns it into an int or a float). */
  datatype Json =
    | Null
    | Bool(b: bool)
    | Num(lexeme: string)
    | Str(s: string)
    | Arr(items: seq<Json>)
    | Obj(members: seq<(string, Json)>)

  /** Python's truth value of the decoded object: `None`, `False`, zero, `""`, `[]` and `{}` are false. */
  predicate Truthy(j: Json) {
    match j
    case Null => false
    case Bool(b) => b
    case Num(lexeme) => !IsZeroLexeme(lexeme)
    case Str(s) => s != ""
    case Arr(items) => items != []
    case Obj(members) => members != []
  }

  /** A number lexeme whose mantissa (the part before any exponent) has only zero digits: `0`, `-0`, `0.00`, `0e7`. */
  predicate IsZeroLexeme(lexeme: string) {
    forall i :: 0 <= i < MantissaLen(lexeme) ==> lexeme[i] in "-0."
  }

  /** Index of the first `e`/`E` of a lexeme, or its length. */
  function MantissaLen(lexeme: string): (n: nat)
    ensures n <= |lexeme|
    ensures forall i :: 0 <= i < n ==> lexeme[i] !in "eE"
    ensures n == |lexeme| || lexeme[n] in "eE"
  {
    if lexeme == [] || lexeme[0] in "eE" then 0 else 1 + MantissaLen(lexeme[1..])
  }

  /** `d.get(key)` on a decoded object: the value of the last pair with that key (a dict keeps the last one). */
  function Get(members: seq<(string, Json)>, key: string): (r: Option<Json>)
    ensures r.None? <==> forall k :: 0 <= k < |members| ==> members[k].0 != key
    ensures r.Some? ==> exists k :: 0 <= k < |members| && members[k] == (key, r.value)
                                    && forall m :: k < m < |members| ==> members[m].0 != key
  {
    if members == [] then None
    else if members[|members| - 1].0 == key then Some(members[|members| - 1].1)
    else Get(members[..|members| - 1], key)
  }

  /** `d.get(key, default)` on a decoded object. */
  function GetOr(members: seq<(string, Json)>, key: string, default: Json): (r: Json)
    ensures (forall k :: 0 <= k < |members| ==> members[k].0 != key) ==> r == default
    ensures Get(members, key).Some? ==> r == Get(members, key).value
  {
    match Get(members, key)
    case None => default
    case Some(v) => v
  }

  /** The whitespace the JSON scanner skips. */
  predicate IsWs(c: char) {
    c == ' ' || c == '\t' || c == '\n' || c == '\r'
  }

  /** A successful parse consumed at least one character. */
  predicate Consumed<T>(s: string, r: Option<(T, string)>) {
    r.Some? ==> |r.value.1| < |s|
  }

  /** The suffix of `s` after its leading JSON whitespace. */
  function SkipWs(s: string): (r: string)
    ensures |r| <= |s|
    ensures r == [] || !IsWs(r[0])
  {
    if s != [] && IsWs(s[0]) then SkipWs(s[1..]) else s
  }

  predicate IsDigit(c: char) {
    '0' <= c <= '9'
  }

  /** The number of leading ASCII digits of `s`. */
  function DigitRun(s: string): (n: nat)
    ensures n <= |s|
    ensures forall i :: 0 <= i < n ==> IsDigit(s[i])
    ensures n == |s| || !IsDigit(s[n])
  {
    if s != [] && IsDigit(s[0]) then 1 + DigitRun(s[1..]) else 0
  }

  /** Length of the integer part (`-?(0|[1-9][0-9]*)`) at the start of `s`, or 0 when there is none. */
  function IntPartLen(s: string): (n: nat)
    ensures n <= |s|
  {
    var sign := if s != [] && s[0] == '-' then 1 else 0;
    if sign >= |s| || !IsDigit(s[sign]) then 0
    else if s[sign] == '0' then sign + 1
    else sign + 1 + DigitRun(s[sign + 1..])
  }

  /** An integer lexeme `-?(0|[1-9][0-9]*)`, which `json.loads` decodes to an `int`. */
  predicate IsIntLexeme(lexeme: string) {
    lexeme != [] && IntPartLen(lexeme) == |lexeme|
  }

  /**
   * `str(v)` of a decoded value, as an f-string field prints it: a string
   * is itself, `True`, `False` and `None` are spelled out, and an integer
   * prints its digits (`-0` decodes to `0`). Python's text for a float, a
   * list or a dict is `formatOther(v)`.
   */
  function Display(v: Json, formatOther: Json -> string): string {
    match v
    case Str(s) => s
    case Bool(b) => if b then "True" else "False"
    case Null => "None"
    case Num(lexeme) =>
      if lexeme == "-0" then "0" else if IsIntLexeme(lexeme) then lexeme else formatOther(v)
    case _ => formatOther(v)
  }

  /** `str(v)` of each value. */
  function DisplayAll(vs: seq<Json>, formatOther: Json -> string): (r: seq<string>)
    ensures |r| == |vs|
    ensures forall i :: 0 <= i < |vs| ==> r[i] == Display(vs[i], formatOther)
  {
    seq(|vs|, i requires 0 <= i < |vs| => Display(vs[i], formatOther))
  }

  /** Length of an optional fraction `\.[0-9]+` at the start of `s`. */
  function FracLen(s: string): (n: nat)
    ensures n <= |s|
    ensures n == 0 || (n >= 2 && s[0] == '.')
  {
    if s != [] && s[0] == '.' && DigitRun(s[1..]) > 0 then 1 + DigitRun(s[1..]) else 0
  }

  /** Length of an optional exponent `[eE][-+]?[0-9]+` at the start of `s`. */
  function ExpLen(s: string): (n: nat)
    ensures n <= |s|
    ensures n == 0 || (n >= 2 && s[0] in "eE")
  {
    if s == [] || s[0] !in "eE" then 0
    else
      var sign := if |s| > 1 && s[1] in "+-" then 1 else 0;
      var d := DigitRun(s[1 + sign..]);
      if d == 0 then 0 else 1 + sign + d
  }

  /** A number at the start of `s`, matched greedily as the scanner does. */
  function ParseNumber(s: string): (r: Option<(Json, string)>)
    ensures Consumed(s, r)
    ensures r.Some? ==> r.value.0.Num? && s == r.value.0.lexeme + r.value.1
  {
    var i := IntPartLen(s);
    if i == 0 then None
    else
      var f := FracLen(s[i..]);
      var e := ExpLen(s[i + f..]);
      var n := i + f + e;
      assert s == s[..n] + s[n..];
      Some((Num(s[..n]), s[n..]))
  }

  function HexDigitValue(c: char): (v: int)
    ensures -1 <= v < 16
  {
    if '0' <= c <= '9' then c as int - '0' as int
    else if 'a' <= c <= 'f' then c as int - 'a' as int + 10
    else if 'A' <= c <= 'F' then c as int - 'A' as int + 10
    else -1
  }

  /** The value of the four hex digits at the start of `s`, or -1. */
  function Hex4(s: string): (v: int)
    ensures -1 <= v < 0x10000
  {
    if |s| < 4 then -1
    else
      var a, b, c, d := HexDigitValue(s[0]), HexDigitValue(s[1]), HexDigitValue(s[2]), HexDigitValue(s[3]);
      if a < 0 || b < 0 || c < 0 || d < 0 then -1 else ((a * 16 + b) * 16 + c) * 16 + d
  }

  /**
   * The body of a string literal up to and including its closing quote:
   * the decoded text and what follows the quote.
   */
  function ParseString(s: string): (r: Option<(string, string)>)
    ensures Consumed(s, r)
    decreases |s|, 1
  {
    if s == [] then None
    else if s[0] == '"' then Some(([], s[1..]))
    else if s[0] < ' ' then None
    else if s[0] == '\\' then
      if |s| < 2 then None
      else
        var c := s[1];
        if c == 'u' then ParseUnicodeEscape(s)
        else
          var d := if c == 'n' then '\n' else if c == 't' then '\t' else if c == 'r' then '\r'
                   else if c == 'b' then '\U{0008}' else if c == 'f' then '\U{000C}' else c;
          if c in "\"\\/bfnrt" then Prepend(d, ParseString(s[2..]), s) else None
    else Prepend(s[0], ParseString(s[1..]), s)
  }

  /** `\uXXXX`, or a surrogate pair `\uD8XX\uDCXX`, inside a string literal. */
  function ParseUnicodeEscape(s: string): (r: Option<(string, string)>)
    requires |s| >= 2 && s[0] == '\\' && s[1] == 'u'
    ensures Consumed(s, r)
    decreases |s|, 0
  {
    var hi := Hex4(s[2..]);
    if hi < 0 then None
    else if 0xD800 <= hi < 0xDC00 && |s| >= 12 && s[6] == '\\' && s[7] == 'u'
            && 0xDC00 <= Hex4(s[8..]) < 0xE000 then
      var code := 0x10000 + (hi - 0xD800) * 0x400 + (Hex4(s[8..]) - 0xDC00);
      Prepend(code as char, ParseString(s[12..]), s)
    else if 0xD800 <= hi < 0xE000 then None
    else Prepend(hi as char, ParseString(s[6..]), s)
  }

  /** Puts one decoded character in front of a decoded rest. */
  function Prepend(c: char, r: Option<(string, string)>, s: string): (p: Option<(string, string)>)
    requires r.Some? ==> |r.value.1| < |s|
    ensures Consumed(s, p)
    ensures p.Some? <==> r.Some?
    ensures p.Some? ==> p.value == ([c] + r.value.0, r.value.1)
  {
    match r
    case None => None
    case Some((t, rest)) => Some(([c] + t, rest))
  }

  /** A value after optional whitespace, and what follows it. */
  function ParseValue(s: string): (r: Option<(Json, string)>)
    ensures Consumed(s, r)
    decreases |s|, 1
  {
    var t := SkipWs(s);
    ParseToken(t)
  }

  /** A value that starts right at the first character of `t`, chosen by that character as the scanner does. */
  function ParseToken(t: string): (r: Option<(Json, string)>)
    ensures Consumed(t, r)
    decreases |t|, 0
  {
    if t == [] then None
    else
      match t[0]
      case '"' => ParseStringValue(t[1..])
      case '{' => ParseObject(t[1..])
      case '[' => ParseArray(t[1..])
      case 'n' => Keyword(t, "null", Null)
      case 't' => Keyword(t, "true", Bool(true))
      case 'f' => Keyword(t, "false", Bool(false))
      case 'N' => Keyword(t, "NaN", Num("NaN"))
      case 'I' => Keyword(t, "Infinity", Num("Infinity"))
      case _ => if StartsWith(t, "-Infinity") then Keyword(t, "-Infinity", Num("-Infinity")) else ParseNumber(t)
  }

  /** A string literal after its opening quote, as a value. */
  function ParseStringValue(s: string): (r: Option<(Json, string)>)
    ensures Consumed(s, r)
  {
    match ParseString(s)
    case None => None
    case Some((str, rest)) => Some((Str(str), rest))
  }

  /** The named constant `word` at the start of `t`. */
  function Keyword(t: string, word: string, v: Json): (r: Option<(Json, string)>)
    requires word != []
    ensures Consumed(t, r)
    ensures r.Some? <==> StartsWith(t, word)
    ensures r.Some? ==> r.value.0 == v && t == word + r.value.1
  {
    if StartsWith(t, word) then
      assert t == word + t[|word|..];
      Some((v, t[|word|..]))
    else None
  }

  /** The elements of an array after its `[`, through its `]`. */
  function ParseArray(s: string): (r: Option<(Json, string)>)
    ensures Consumed(s, r)
    decreases |s|, 3
  {
    var t := SkipWs(s);
    if t != [] && t[0] == ']' then Some((Arr([]), t[1..]))
    else ParseElements(t, [])
  }

  /** Elements from the next one on; `acc` holds the ones already read. */
  function ParseElements(s: string, acc: seq<Json>): (r: Option<(Json, string)>)
    ensures Consumed(s, r)
    decreases |s|, 2
  {
    match ParseValue(s)
    case None => None
    case Some((v, rest)) =>
      var t := SkipWs(rest);
      if t != [] && t[0] == ',' then ParseElements(t[1..], acc + [v])
      else if t != [] && t[0] == ']' then Some((Arr(acc + [v]), t[1..]))
      else None
  }

  /** The members of an object after its `{`, through its `}`. */
  function ParseObject(s: string): (r: Option<(Json, string)>)
    ensures Consumed(s, r)
    decreases |s|, 3
  {
    var t := SkipWs(s);
    if t != [] && t[0] == '}' then Some((Obj([]), t[1..]))
    else ParseMembers(t, [])
  }

  /** Members from the next key on; `acc` holds the pairs already read. */
  function ParseMembers(s: string, acc: seq<(string, Json)>): (r: Option<(Json, string)>)
    ensures Consumed(s, r)
    decreases |s|, 2
  {
    var t := SkipWs(s);
    if t == [] || t[0] != '"' then None
    else
      var p := ParseString(t[1..]);
      if p.None? then None
      else
        var u := SkipWs(p.value.1);
        if u == [] || u[0] != ':' then None
        else
          ParseMemberValue(u[1..], p.value.0, acc)
  }

  /** The value of member `key` (after its colon) and the members after it. */
  function ParseMemberValue(s: string, key: string, acc: seq<(string, Json)>): (r: Option<(Json, string)>)
    ensures Consumed(s, r)
    decreases |s|, 2
  {
    match ParseValue(s)
    case None => None
    case Some((v, rest)) =>
      var w := SkipWs(rest);
      if w != [] && w[0] == ',' then ParseMembers(w[1..], acc + [(key, v)])
      else if w != [] && w[0] == '}' then Some((Obj(acc + [(key, v)]), w[1..]))
      else None
  }

  /** `json.loads(s)`: `None` stands for a raised `JSONDecodeError`. */
  function Loads(s: string): Option<Json> {
    match ParseValue(s)
    case None => None
    case Some((v, rest)) => if SkipWs(rest) == [] then Some(v) else None
  }

  // Reading text laid out as JSON tokens, one construct at a time. The
  // lemmas below let a concrete document be read piece by piece.

  /** Every character is JSON whitespace. */
  predicate AllWs(s: string) {
    forall i :: 0 <= i < |s| ==> IsWs(s[i])
  }

  /** Text that a string literal carries unescaped: no quote, no backslash, no control character. */
  predicate PlainText(s: string) {
    forall i :: 0 <= i < |s| ==> s[i] != '"' && s[i] != '\\' && s[i] >= ' '
  }

  lemma {:induction false} SkipWsOver(ws: string, rest: string)
    requires AllWs(ws) && (rest == [] || !IsWs(rest[0]))
    ensures SkipWs(ws + rest) == rest
  {
    if ws == [] {
      assert ws + rest == rest;
    } else {
      assert (ws + rest)[1..] == ws[1..] + rest;
      SkipWsOver(ws[1..], rest);
    }
  }

  /** A plain text followed by a quote is read back as exactly that text. */
  lemma {:induction false} ParseStringPlain(body: string, rest: string)
    requires PlainText(body)
    ensures ParseString(body + "\"" + rest) == Some((body, rest))
  {
    var s := body + "\"" + rest;
    if body == [] {
      assert s == "\"" + rest;
      assert s[1..] == rest;
    } else {
      assert s[1..] == body[1..] + "\"" + rest;
      ParseStringPlain(body[1..], rest);
      assert [body[0]] + body[1..] == body;
    }
  }

  /** A quoted plain text, after whitespace, is a string value. */
  lemma ParseValuePlainString(ws: string, body: string, rest: string)
    requires AllWs(ws) && PlainText(body)
    ensures ParseValue(ws + "\"" + body + "\"" + rest) == Some((Str(body), rest))
  {
    var t := "\"" + body + "\"" + rest;
    assert ws + "\"" + body + "\"" + rest == ws + t;
    SkipWsOver(ws, t);
    assert t[1..] == body + "\"" + rest;
    ParseStringPlain(body, rest);
  }

  /** A single non-zero digit not continued by a digit, fraction or exponent is a number. */
  lemma ParseNumberDigit(d: char, rest: string)
    requires '1' <= d <= '9'
    requires rest == [] || (!IsDigit(rest[0]) && rest[0] != '.' && rest[0] != 'e' && rest[0] != 'E')
    ensures ParseNumber([d] + rest) == Some((Num([d]), rest))
  {
    var t := [d] + rest;
    assert t[0] == d && t[1..] == rest;
    assert DigitRun(rest) == 0;
    assert IntPartLen(t) == 1;
    assert FracLen(rest) == 0;
    assert ExpLen(rest) == 0;
    assert t[..1] == [d];
  }

  /** The same number value after whitespace. */
  lemma ParseValueDigit(ws: string, d: char, rest: string)
    requires AllWs(ws) && '1' <= d <= '9'
    requires rest == [] || (!IsDigit(rest[0]) && rest[0] != '.' && rest[0] != 'e' && rest[0] != 'E')
    ensures ParseValue(ws + [d] + rest) == Some((Num([d]), rest))
  {
    var t := [d] + rest;
    assert ws + [d] + rest == ws + t;
    SkipWsOver(ws, t);
    assert t[0] == d;
    assert !StartsWith(t, "-Infinity") by { assert t[0] != "-Infinity"[0]; }
    ParseNumberDigit(d, rest);
    assert ParseToken(t) == ParseNumber(t);
  }

  /** An opening brace after whitespace starts an object. */
  lemma ParseValueObject(ws: string, body: string)
    requires AllWs(ws)
    ensures ParseValue(ws + "{" + body) == ParseObject(body)
  {
    assert ws + "{" + body == ws + ("{" + body);
    SkipWsOver(ws, "{" + body);
    assert ("{" + body)[1..] == body;
  }

  /** An opening bracket after whitespace starts an array. */
  lemma ParseValueArray(ws: string, body: string)
    requires AllWs(ws)
    ensures ParseValue(ws + "[" + body) == ParseArray(body)
  {
    assert ws + "[" + body == ws + ("[" + body);
    SkipWsOver(ws, "[" + body);
    assert ("[" + body)[1..] == body;
  }

  /** An object body that does not close at once is read as members. */
  lemma ParseObjectMembers(ws: string, body: string)
    requires AllWs(ws) && body != [] && !IsWs(body[0]) && body[0] != '}'
    ensures ParseObject(ws + body) == ParseMembers(body, [])
  {
    SkipWsOver(ws, body);
    SkipWsOver([], body);
    assert [] + body == body;
  }

  /** An array body that does not close at once is read as elements. */
  lemma ParseArrayElements(ws: string, body: string)
    requires AllWs(ws) && body != [] && !IsWs(body[0]) && body[0] != ']'
    ensures ParseArray(ws + body) == ParseElements(body, [])
  {
    SkipWsOver(ws, body);
  }

  /** A quoted plain key and its colon lead to the member's value. */
  lemma ParseMembersKey(ws: string, key: string, ws2: string, vs: string, acc: seq<(string, Json)>)
    requires AllWs(ws) && AllWs(ws2) && PlainText(key)
    ensures ParseMembers(ws + "\"" + key + "\"" + ws2 + ":" + vs, acc) == ParseMemberValue(vs, key, acc)
  {
    var u := ":" + vs;
    var t := "\"" + key + "\"" + (ws2 + u);
    assert ws + "\"" + key + "\"" + ws2 + ":" + vs == ws + t;
    SkipWsOver(ws, t);
    assert t[0] == '"';
    assert t[1..] == key + "\"" + (ws2 + u);
    ParseStringPlain(key, ws2 + u);
    SkipWsOver(ws2, u);
    assert u[0] == ':' && u[1..] == vs;
    ParseMembersAfterKey(ws + t, t, key, ws2 + u, u, acc);
  }

  lemma ParseMembersAfterKey(s: string, t: string, key: string, rest: string, u: string, acc: seq<(string, Json)>)
    requires SkipWs(s) == t && t != [] && t[0] == '"' && ParseString(t[1..]) == Some((key, rest))
    requires SkipWs(rest) == u && u != [] && u[0] == ':'
    ensures ParseMembers(s, acc) == ParseMemberValue(u[1..], key, acc)
  {
  }

  /** A member value followed by a comma goes on to the next member. */
  lemma ParseMemberValueNext(vs: string, key: string, acc: seq<(string, Json)>, v: Json, ws: string, more: string)
    requires AllWs(ws) && ParseValue(vs) == Some((v, ws + "," + more))
    ensures ParseMemberValue(vs, key, acc) == ParseMembers(more, acc + [(key, v)])
  {
    assert ws + "," + more == ws + ("," + more);
    SkipWsOver(ws, "," + more);
    assert ("," + more)[1..] == more;
  }

  /** A member value followed by a closing brace ends the object. */
  lemma ParseMemberValueLast(vs: string, key: string, acc: seq<(string, Json)>, v: Json, ws: string, more: string)
    requires AllWs(ws) && ParseValue(vs) == Some((v, ws + "}" + more))
    ensures ParseMemberValue(vs, key, acc) == Some((Obj(acc + [(key, v)]), more))
  {
    assert ws + "}" + more == ws + ("}" + more);
    SkipWsOver(ws, "}" + more);
    var w := SkipWs(ws + "}" + more);
    assert w == "}" + more;
    assert w[0] == '}' && w[1..] == more;
  }

  /** An element followed by a comma goes on to the next element. */
  lemma ParseElementsNext(s: string, acc: seq<Json>, v: Json, ws: string, more: string)
    requires AllWs(ws) && ParseValue(s) == Some((v, ws + "," + more))
    ensures ParseElements(s, acc) == ParseElements(more, acc + [v])
  {
    assert ws + "," + more == ws + ("," + more);
    SkipWsOver(ws, "," + more);
    assert ("," + more)[1..] == more;
  }

  /** An element followed by a closing bracket ends the array. */
  lemma ParseElementsLast(s: string, acc: seq<Json>, v: Json, ws: string, more: string)
    requires AllWs(ws) && ParseValue(s) == Some((v, ws + "]" + more))
    ensures ParseElements(s, acc) == Some((Arr(acc + [v]), more))
  {
    assert ws + "]" + more == ws + ("]" + more);
    SkipWsOver(ws, "]" + more);
    assert ("]" + more)[1..] == more;
  }

  /** A value followed only by whitespace is what `json.loads` returns. */
  lemma LoadsValue(s: string, v: Json, ws: string)
    requires AllWs(ws) && ParseValue(s) == Some((v, ws))
    ensures Loads(s) == Some(v)
  {
    SkipWsOver(ws, []);
    assert ws + [] == ws;
  }

  /** `json.loads` on a quoted plain text, as written by `json.dumps`, gives that text back. */
  lemma LoadsPlainString(body: string)
    requires PlainText(body)
    ensures Loads("\"" + body + "\"") == Some(Str(body))
  {
    assert "\"" + body + "\"" == [] + "\"" + body + "\"" + [];
    ParseValuePlainString([], body, []);
    LoadsValue("\"" + body + "\"", Str(body), []);
  }
}
