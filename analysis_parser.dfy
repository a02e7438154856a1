/**
 * `parse_gemini_response`: getting the analysis report out of the model's
 * reply. Three strategies are tried in order and the first one that gets
 * as far as `json.loads` decides the result:
 *   1. the whole reply;
 *   2. the group of the first match of the regular expression
 *      ```` ```json\s*(\{.*?\})\s*``` ```` (DOTALL, IGNORECASE);
 *   3. the span from the first `{` to the last `}`, after the substitution
 *      `re.sub(r",\s*(\}|\])", r"\1", ...)` has removed trailing commas.
 */
module AnalysisParser {
  import opened Common
  import opened PyStr
  import opened Json

  // ---------------------------------------------------------------------
  // The regular expression  ```json\s*(\{.*?\})\s*```

  /**
   * The characters the pattern ```` ```json ```` accepts at `t[p..p + 7]`
   * under IGNORECASE: backticks are themselves, `j`/`o`/`n` match either
   * case, and `s` also matches U+017F (LATIN SMALL LETTER LONG S), whose
   * upper case is `S`.
   */
  predicate JsonTagAt(t: string, p: nat) {
    p + 7 <= |t| && t[p] == '`' && t[p + 1] == '`' && t[p + 2] == '`'
    && (t[p + 3] == 'j' || t[p + 3] == 'J')
    && (t[p + 4] == 's' || t[p + 4] == 'S' || t[p + 4] == '\U{017F}')
    && (t[p + 5] == 'o' || t[p + 5] == 'O')
    && (t[p + 6] == 'n' || t[p + 6] == 'N')
  }

  /**
   * `\s*```` ` matches at `j`. Giving back whitespace cannot help the
   * greedy `\s*`, since a backtick is not whitespace, so only its longest
   * run is tried.
   */
  predicate ClosesAt(t: string, j: nat)
    requires j <= |t|
  {
    var e := SpaceEnd(t, j);
    e + 3 <= |t| && t[e] == '`' && t[e + 1] == '`' && t[e + 2] == '`'
  }

  /**
   * The whole pattern matches `t[p..]` with its group ending at `j`. The
   * group starts where the whitespace after the tag ends (a `{` is not
   * whitespace, so `\s*` keeps all of it), and it ends with `}`.
   */
  predicate FenceAt(t: string, p: nat, j: nat) {
    JsonTagAt(t, p)
    && var q := SpaceEnd(t, p + 7);
       q < |t| && t[q] == '{' && q + 2 <= j <= |t| && t[j - 1] == '}' && ClosesAt(t, j)
  }

  /** A match: the tag's position and the span `[start, end)` of its group. */
  datatype Fence = Fence(open: nat, start: nat, end: nat)

  /** The least `j' >= j` that ends a match starting at `p` (the lazy `.*?` takes the shortest). */
  function BlockEnd(t: string, p: nat, j: nat): (r: Option<nat>)
    ensures r.Some? ==> j <= r.value && FenceAt(t, p, r.value)
    ensures r.Some? ==> forall j': nat :: j <= j' < r.value ==> !FenceAt(t, p, j')
    ensures r.None? ==> forall j': nat :: j <= j' ==> !FenceAt(t, p, j')
    decreases |t| + 1 - j
  {
    if j > |t| then None
    else if FenceAt(t, p, j) then Some(j)
    else BlockEnd(t, p, j + 1)
  }

  /** `re.search` from position `p` on: the leftmost position where the pattern matches. */
  function FenceFrom(t: string, p: nat): (r: Option<Fence>)
    ensures r.Some? ==> p <= r.value.open && FenceAt(t, r.value.open, r.value.end)
    ensures r.Some? ==> r.value.start == SpaceEnd(t, r.value.open + 7)
    ensures r.Some? ==> forall p': nat, j': nat :: p <= p' < r.value.open ==> !FenceAt(t, p', j')
    ensures r.Some? ==> forall j': nat :: j' < r.value.end ==> !FenceAt(t, r.value.open, j')
    ensures r.None? ==> forall p': nat, j': nat :: p <= p' ==> !FenceAt(t, p', j')
    decreases |t| - p
  {
    if p + 7 > |t| then
      NoTagNearEnd(t, p);
      None
    else
      match BlockEnd(t, p, 0)
      case Some(j) => Some(Fence(p, SpaceEnd(t, p + 7), j))
      case None =>
        var r := FenceFrom(t, p + 1);
        NoFenceAtStep(t, p, if r.Some? then r.value.open else |t|);
        r
  }

  /** No tag fits in fewer than seven characters. */
  lemma NoTagNearEnd(t: string, p: nat)
    requires p + 7 > |t|
    ensures forall p': nat, j': nat :: p <= p' ==> !FenceAt(t, p', j')
  {
  }

  /** A position where no match ends extends a match-free range to its left. */
  lemma NoFenceAtStep(t: string, p: nat, q: nat)
    requires BlockEnd(t, p, 0).None?
    ensures (forall p': nat, j': nat :: p + 1 <= p' < q ==> !FenceAt(t, p', j'))
            ==> forall p': nat, j': nat :: p <= p' < q ==> !FenceAt(t, p', j')
    ensures (forall p': nat, j': nat :: p + 1 <= p' ==> !FenceAt(t, p', j'))
            ==> forall p': nat, j': nat :: p <= p' ==> !FenceAt(t, p', j')
  {
  }

  /**
   * The first match of the fenced-block pattern: it starts at the leftmost
   * ```` ```json ```` that can match at all, its group starts at the `{`
   * after the tag's whitespace, and it ends at the first `}` that is
   * followed by optional whitespace and three backticks.
   */
  function FenceMatch(t: string): (r: Option<Fence>)
    ensures r.Some? ==> FenceAt(t, r.value.open, r.value.end) && r.value.start == SpaceEnd(t, r.value.open + 7)
    ensures r.Some? ==> forall p': nat, j': nat :: p' < r.value.open ==> !FenceAt(t, p', j')
    ensures r.Some? ==> forall j': nat :: j' < r.value.end ==> !FenceAt(t, r.value.open, j')
    ensures r.None? <==> forall p': nat, j': nat :: !FenceAt(t, p', j')
  {
    FenceFrom(t, 0)
  }

  /** The group of a match is a `{`...`}` piece of the text. */
  lemma FenceGroupIsBraced(t: string)
    requires FenceMatch(t).Some?
    ensures var f := FenceMatch(t).value;
            f.start + 2 <= f.end <= |t| && t[f.start] == '{' && t[f.end - 1] == '}'
  {
  }

  /** Text without a backtick has no fenced block. */
  lemma NoBacktickNoFence(t: string)
    requires '`' !in t
    ensures FenceMatch(t).None?
  {
    forall p: nat ensures !JsonTagAt(t, p) {
      if p < |t| {
        assert t[p] in t;
      }
    }
  }

  // ---------------------------------------------------------------------
  // The substitution  re.sub(r",\s*(\}|\])", r"\1", s)

  /** A character the substitution may delete. */
  predicate Deletable(c: char) {
    c == ',' || IsSpace(c)
  }

  /** `r` is `s` with some commas and whitespace characters deleted, everything else kept in order. */
  predicate DeletesOnly(s: string, r: string)
    decreases |s|
  {
    if s == [] then r == []
    else (r != [] && r[0] == s[0] && DeletesOnly(s[1..], r[1..]))
         || (Deletable(s[0]) && DeletesOnly(s[1..], r))
  }

  /**
   * One left-to-right pass: a comma whose following whitespace run ends in
   * `}` or `]` is replaced, together with that whitespace, by the closer,
   * and scanning resumes after the closer. Brackets inside string values
   * are not told apart. The pass is not idempotent: `",,}"` becomes `",}"`.
   */
  function StripTrailingCommas(s: string): (r: string)
    ensures |r| <= |s|
    decreases |s|
  {
    if s == [] then []
    else if s[0] == ',' then
      var k := SpaceEnd(s, 1);
      if k < |s| && (s[k] == '}' || s[k] == ']') then [s[k]] + StripTrailingCommas(s[k + 1..])
      else [','] + StripTrailingCommas(s[1..])
    else [s[0]] + StripTrailingCommas(s[1..])
  }

  /** The pass only deletes commas and whitespace, and text without a comma passes through unchanged. */
  lemma {:induction false} StripTrailingCommasDeletesOnly(s: string)
    ensures DeletesOnly(s, StripTrailingCommas(s))
    ensures ',' !in s ==> StripTrailingCommas(s) == s
    decreases |s|
  {
    if s == [] {
    } else if s[0] == ',' {
      var k := SpaceEnd(s, 1);
      if k < |s| && (s[k] == '}' || s[k] == ']') {
        var rest := StripTrailingCommas(s[k + 1..]);
        StripTrailingCommasDeletesOnly(s[k + 1..]);
        assert DeletesOnly(s[k..], [s[k]] + rest) by {
          assert s[k..][1..] == s[k + 1..];
          assert ([s[k]] + rest)[1..] == rest;
        }
        DropDeletable(s, k, [s[k]] + rest);
      } else {
        var rest := StripTrailingCommas(s[1..]);
        StripTrailingCommasDeletesOnly(s[1..]);
        assert ([','] + rest)[1..] == rest;
      }
    } else {
      var rest := StripTrailingCommas(s[1..]);
      StripTrailingCommasDeletesOnly(s[1..]);
      if ',' !in s {
        assert forall m :: 0 <= m < |s[1..]| ==> s[1..][m] == s[m + 1];
        assert [s[0]] + s[1..] == s;
      }
      assert ([s[0]] + rest)[1..] == rest;
    }
  }

  /** Deleting a prefix of deletable characters keeps `DeletesOnly`. */
  lemma {:induction false} DropDeletable(s: string, i: nat, r: string)
    requires i <= |s|
    requires forall m :: 0 <= m < i ==> Deletable(s[m])
    requires DeletesOnly(s[i..], r)
    ensures DeletesOnly(s, r)
    decreases i
  {
    if i > 0 {
      assert s[1..][i - 1..] == s[i..];
      DropDeletable(s[1..], i - 1, r);
    }
  }

  /**
   * Where `,\s*(\}|\])` matches: a comma whose following whitespace run
   * ends in `}` or `]`. Such matches never overlap, since a match holds no
   * other comma.
   */
  predicate DroppedComma(s: string, p: nat) {
    p < |s| && s[p] == ',' && SpaceEnd(s, p + 1) < |s| && s[SpaceEnd(s, p + 1)] in "}]"
  }

  /** Position `i` lies in a match before its closer: the comma or its whitespace. */
  predicate Dropped(s: string, i: nat) {
    exists p :: 0 <= p <= i && DroppedComma(s, p) && i < SpaceEnd(s, p + 1)
  }

  /** The reference rewrite: the characters of `s` from `i` on that lie in no match before its closer. */
  function KeptFrom(s: string, i: nat): string
    requires i <= |s|
    decreases |s| - i
  {
    if i == |s| then [] else (if Dropped(s, i) then [] else [s[i]]) + KeptFrom(s, i + 1)
  }

  /** The scanning pass is the reference rewrite: it deletes exactly the commas and whitespace of every match. */
  lemma StripTrailingCommasDropsMatches(s: string)
    ensures StripTrailingCommas(s) == KeptFrom(s, 0)
  {
    assert s[0..] == s;
    StripFrom(s, 0);
  }

  /** No match that starts before `b` reaches past it. */
  predicate NoMatchAcross(s: string, b: nat)
    requires b <= |s|
  {
    forall p :: 0 <= p < b && DroppedComma(s, p) ==> SpaceEnd(s, p + 1) <= b
  }

  /** From a position no match straddles, the pass on the rest of the text keeps what the reference keeps. */
  lemma {:induction false} StripFrom(s: string, b: nat)
    requires b <= |s| && NoMatchAcross(s, b)
    ensures StripTrailingCommas(s[b..]) == KeptFrom(s, b)
    decreases |s| - b
  {
    if b < |s| {
      var next, piece := StripStep(s, b);
      StripFrom(s, next);
    }
  }

  /** One step of the pass and of the reference rewrite: both emit `piece` and go on at `next`. */
  lemma StripStep(s: string, b: nat) returns (next: nat, piece: string)
    requires b < |s| && NoMatchAcross(s, b)
    ensures b < next <= |s| && NoMatchAcross(s, next)
    ensures StripTrailingCommas(s[b..]) == piece + StripTrailingCommas(s[next..])
    ensures KeptFrom(s, b) == piece + KeptFrom(s, next)
  {
    if DroppedComma(s, b) {
      var e := SpaceEnd(s, b + 1);
      next, piece := e + 1, [s[e]];
      MatchStrip(s, b, e);
      MatchKept(s, b, e);
    } else {
      next, piece := b + 1, [s[b]];
      PlainStrip(s, b);
      PlainKept(s, b);
    }
  }

  /** At a match the pass emits the closer and resumes after it. */
  lemma MatchStrip(s: string, b: nat, e: nat)
    requires DroppedComma(s, b) && e == SpaceEnd(s, b + 1)
    ensures e < |s| && StripTrailingCommas(s[b..]) == [s[e]] + StripTrailingCommas(s[e + 1..])
  {
    var t := s[b..];
    SpaceEndShift(s, b, 1);
    assert t[0] == ',' && t[e - b] == s[e];
    StripAtClosingComma(t, e - b);
    assert t[e - b + 1..] == s[e + 1..];
  }

  /** One step of the pass at a comma that a closing bracket follows. */
  lemma StripAtClosingComma(t: string, k: nat)
    requires t != [] && t[0] == ',' && k == SpaceEnd(t, 1) && k < |t| && t[k] in "}]"
    ensures StripTrailingCommas(t) == [t[k]] + StripTrailingCommas(t[k + 1..])
  {
  }

  /** At a match the reference keeps only the closer, and no match straddles the position after it. */
  lemma MatchKept(s: string, b: nat, e: nat)
    requires b <= |s| && NoMatchAcross(s, b) && DroppedComma(s, b) && e == SpaceEnd(s, b + 1)
    ensures e < |s| && KeptFrom(s, b) == [s[e]] + KeptFrom(s, e + 1) && NoMatchAcross(s, e + 1)
  {
    assert forall p :: b < p <= e ==> s[p] != ',';
    SkipDropped(s, b, e);
    assert !Dropped(s, e);
  }

  /** Elsewhere the pass keeps the character and moves on. */
  lemma PlainStrip(s: string, b: nat)
    requires b < |s| && !DroppedComma(s, b)
    ensures StripTrailingCommas(s[b..]) == [s[b]] + StripTrailingCommas(s[b + 1..])
  {
    var t := s[b..];
    assert t[0] == s[b] && t[1..] == s[b + 1..];
    if s[b] == ',' {
      SpaceEndShift(s, b, 1);
    }
  }

  /** Elsewhere the reference keeps the character too. */
  lemma PlainKept(s: string, b: nat)
    requires b < |s| && NoMatchAcross(s, b) && !DroppedComma(s, b)
    ensures KeptFrom(s, b) == [s[b]] + KeptFrom(s, b + 1) && NoMatchAcross(s, b + 1)
  {
    assert !Dropped(s, b);
  }

  /** `\s*` from `j` on a suffix stops where it stops on the whole text. */
  lemma {:induction false} SpaceEndShift(s: string, b: nat, j: nat)
    requires b + j <= |s|
    ensures SpaceEnd(s[b..], j) == SpaceEnd(s, b + j) - b
    decreases |s| - b - j
  {
    if b + j < |s| && IsSpace(s[b + j]) {
      assert s[b..][j] == s[b + j];
      SpaceEndShift(s, b, j + 1);
    }
  }

  /** The characters of a match before its closer come out of the reference rewrite. */
  lemma {:induction false} SkipDropped(s: string, i: nat, e: nat)
    requires i <= e <= |s|
    requires forall k :: i <= k < e ==> Dropped(s, k)
    ensures KeptFrom(s, i) == KeptFrom(s, e)
    decreases e - i
  {
    if i < e {
      SkipDropped(s, i + 1, e);
    }
  }

  /** The substitution also rewrites inside string values: `"a,]"` (a quoted text) loses its comma. */
  lemma CommaInsideStringIsRemoved()
    ensures StripTrailingCommas("\"a,]\"") == "\"a]\""
  {
    var s := "\"a,]\"";
    assert s[1..] == "a,]\"";
    assert s[1..][1..] == ",]\"";
    assert SpaceEnd(",]\"", 1) == 1;
    assert ",]\""[2..] == "\"";
    assert StripTrailingCommas("\"") == "\"";
    assert StripTrailingCommas(",]\"") == "]\"";
    assert StripTrailingCommas("a,]\"") == "a]\"";
  }

  // ---------------------------------------------------------------------
  // The staged extraction

  /** Which step of `parse_gemini_response` produced the result, and the text given to `json.loads` there. */
  datatype Route =
    | NoInput                                  // empty reply: nothing is parsed
    | Direct                                   // the whole reply parsed
    | FencedBlock(start: nat, end: nat)        // the fenced block's group was parsed, successfully or not
    | BracketSpan(start: nat, end: nat)        // the cleaned `{`...`}` span was parsed, successfully or not
    | NotFound                                 // no strategy reached the parser

  datatype Extraction = Extraction(route: Route, value: Option<Json>)

  /** The staged extraction, with the step that decided it. */
  function Extract(text: string): (r: Extraction)
    ensures text == "" <==> r.route.NoInput?
    ensures r.route.Direct? <==> text != "" && Loads(text).Some?
    ensures r.route.FencedBlock? ==> r.route.start < r.route.end <= |text|
                                     && r.value == Loads(text[r.route.start..r.route.end])
    ensures r.route.BracketSpan? ==> r.route.start < r.route.end <= |text|
                                     && r.value == Loads(StripTrailingCommas(text[r.route.start..r.route.end]))
    ensures r.route.NoInput? || r.route.NotFound? ==> r.value.None?
    ensures r.route.Direct? ==> r.value == Loads(text)
  {
    if text == "" then Extraction(NoInput, None)
    else if Loads(text).Some? then Extraction(Direct, Loads(text))
    else
      match FenceMatch(text)
      case Some(f) => Extraction(FencedBlock(f.start, f.end), Loads(text[f.start..f.end]))
      case None =>
        var a := FindChar(text, '{');
        var b := RFindChar(text, '}');
        if a != -1 && b != -1 && b > a then
          Extraction(BracketSpan(a, b + 1), Loads(StripTrailingCommas(text[a..b + 1])))
        else Extraction(NotFound, None)
  }

  /** `parse_gemini_response(text)`; `None` is Python's `None`. */
  function ParseGeminiResponse(text: string): (r: Option<Json>)
    ensures text == "" ==> r.None?
    ensures Loads(text).Some? && text != "" ==> r == Loads(text)
  {
    Extract(text).value
  }

  /**
   * The fenced strategy: when the whole text does not parse and the
   * pattern matches, the result is the parse of exactly the match's group,
   * and the bracket fallback is not tried even when that parse fails.
   */
  lemma FencedBlockDecides(text: string)
    requires text != "" && Loads(text).None? && FenceMatch(text).Some?
    ensures var f := FenceMatch(text).value;
            Extract(text).route == FencedBlock(f.start, f.end)
            && ParseGeminiResponse(text) == Loads(text[f.start..f.end])
  {
  }

  /**
   * The bracket fallback: with no direct parse and no fenced block, the
   * candidate runs from the first `{` through the last `}`; it is used only
   * when both exist in that order, and otherwise the result is `None`.
   */
  lemma BracketFallback(text: string)
    requires text != "" && Loads(text).None? && FenceMatch(text).None?
    ensures var r := Extract(text);
            (r.route.BracketSpan? || r.route.NotFound?)
            && (r.route.BracketSpan? ==>
                  text[r.route.start] == '{' && '{' !in text[..r.route.start]
                  && text[r.route.end - 1] == '}' && '}' !in text[r.route.end..])
            && (r.route.NotFound? ==>
                  forall a, b :: 0 <= a < b < |text| && text[a] == '{' ==> text[b] != '}')
  {
    var a := FindChar(text, '{');
    var b := RFindChar(text, '}');
    if !(a != -1 && b != -1 && b > a) {
      forall x, y | 0 <= x < y < |text| && text[x] == '{' ensures text[y] != '}' {
        assert text[x] in text;
        assert text[y] in text;
      }
    }
  }

  /**
   * A text that does not parse as a whole and has no `{` before a `}`
   * gives `None`: neither the fenced block nor the fallback can apply.
   */
  lemma NoBracePairGivesNone(text: string)
    requires Loads(text).None?
    requires forall a, b :: 0 <= a < b < |text| && text[a] == '{' ==> text[b] != '}'
    ensures ParseGeminiResponse(text).None?
  {
    if text != "" {
      var f := FenceMatch(text);
      if f.Some? {
        FenceGroupIsBraced(text);
        assert false;
      }
      var a := FindChar(text, '{');
      var b := RFindChar(text, '}');
      if a != -1 && b != -1 && b > a {
        assert false;
      }
    }
  }
}
