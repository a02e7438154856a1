/**
 * `parse_transcript_into_s1_s2_pairs` of the voice-cloning script: the
 * transcript is cut into `[S1]`/`[S2]` turns by the regular expression
 * `(\[S[12]\]\s*.*?(?=\n\[S[12]\]|$))` (DOTALL), and each `[S1]` turn becomes
 * one chunk, together with the `[S2]` turn right after it when there is one.
 */
module DiaPairs {
  import opened PyStr

  const S1Tag: string := "[S1]"
  const S2Tag: string := "[S2]"

  // ---------------------------------------------------------------------
  // The regular expression

  /** `\[S[12]\]` matches at `p`. */
  predicate TagAt(s: string, p: int) {
    0 <= p && p + 4 <= |s| && s[p] == '[' && s[p + 1] == 'S'
    && (s[p + 2] == '1' || s[p + 2] == '2') && s[p + 3] == ']'
  }

  /**
   * The lookahead `(?=\n\[S[12]\]|$)` holds at `e`. Without MULTILINE, `$`
   * matches at the end of the text and just before a newline that ends it.
   */
  predicate BoundaryAt(s: string, e: int) {
    0 <= e <= |s|
    && (e == |s| || (e == |s| - 1 && s[e] == '\n') || (s[e] == '\n' && TagAt(s, e + 1)))
  }

  /** Where the lazy `.*?` that starts at `k` stops: the first boundary at or after `k`. */
  function TurnEnd(s: string, k: nat): (e: nat)
    requires k <= |s|
    ensures k <= e <= |s| && BoundaryAt(s, e)
    ensures forall j :: k <= j < e ==> !BoundaryAt(s, j)
    decreases |s| - k
  {
    if BoundaryAt(s, k) then k else TurnEnd(s, k + 1)
  }

  /**
   * Where a match that starts with the tag at `p` ends. The greedy `\s*`
   * keeps the whole whitespace run after the tag: the lookahead holds at the
   * end of the text, so the lazy `.*?` always finds a place to stop and the
   * whitespace is never given back.
   */
  function MatchEnd(s: string, p: nat): (e: nat)
    requires TagAt(s, p)
    ensures p + 4 <= e <= |s|
  {
    TurnEnd(s, SpaceEnd(s, p + 4))
  }

  /** One match: where its tag starts and where it ends. */
  datatype Span = Span(start: nat, end: nat)

  /** `re.finditer` from position `p`: non-overlapping matches, left to right. */
  function Matches(s: string, p: nat): seq<Span>
    requires p <= |s|
    decreases |s| - p
  {
    if p == |s| then []
    else if TagAt(s, p) then [Span(p, MatchEnd(s, p))] + Matches(s, MatchEnd(s, p))
    else Matches(s, p + 1)
  }

  /** A span of the text that starts with a tag. */
  predicate TaggedSpan(s: string, sp: Span) {
    TagAt(s, sp.start) && sp.start + 4 <= sp.end <= |s|
  }

  /** A match starts at a tag and ends where `MatchEnd` says. */
  predicate MatchOf(s: string, sp: Span) {
    TaggedSpan(s, sp) && sp.end == MatchEnd(s, sp.start)
  }

  /** Every match lies inside the text, begins with a tag and ends at its boundary. */
  lemma {:induction false} MatchesWellFormed(s: string, p: nat)
    requires p <= |s|
    ensures forall k :: 0 <= k < |Matches(s, p)| ==>
              p <= Matches(s, p)[k].start && MatchOf(s, Matches(s, p)[k])
    decreases |s| - p
  {
    if p < |s| {
      if TagAt(s, p) {
        MatchesWellFormed(s, MatchEnd(s, p));
      } else {
        MatchesWellFormed(s, p + 1);
      }
    }
  }

  /** Text before the first tag is skipped: no tag lies before the first match. */
  lemma {:induction false} NoTagBeforeFirstMatch(s: string, p: nat)
    requires p <= |s|
    ensures Matches(s, p) == [] ==> forall j :: p <= j < |s| ==> !TagAt(s, j)
    ensures Matches(s, p) != [] ==> forall j :: p <= j < Matches(s, p)[0].start ==> !TagAt(s, j)
    decreases |s| - p
  {
    if p < |s| && !TagAt(s, p) {
      NoTagBeforeFirstMatch(s, p + 1);
    }
  }

  /** Where no tag starts, the scan moves on without a match. */
  lemma {:induction false} SkipToTag(s: string, p: nat, q: nat)
    requires p <= q <= |s|
    requires forall j :: p <= j < q ==> !TagAt(s, j)
    ensures Matches(s, p) == Matches(s, q)
    decreases q - p
  {
    if p < q {
      SkipToTag(s, p + 1, q);
    }
  }

  /** The match after a boundary newline starts right after it; a trailing newline ends the scan. */
  lemma MatchesAfterBoundary(s: string, e: nat)
    requires e <= |s| && BoundaryAt(s, e)
    ensures e == |s| || e == |s| - 1 ==> Matches(s, e) == []
    ensures e < |s| - 1 ==> Matches(s, e) == [Span(e + 1, MatchEnd(s, e + 1))] + Matches(s, MatchEnd(s, e + 1))
  {
    if e < |s| {
      assert !TagAt(s, e);
      assert Matches(s, e) == Matches(s, e + 1);
    }
  }

  /**
   * Consecutive matches are separated by exactly one newline: each turn
   * after the first starts at a tag that opens a line, and a tag inside a
   * line never starts a turn of its own.
   */
  lemma {:induction false} MatchesAdjacent(s: string, p: nat)
    requires p <= |s|
    ensures forall k :: 0 <= k < |Matches(s, p)| - 1 ==>
              Matches(s, p)[k].end < |s| && s[Matches(s, p)[k].end] == '\n'
              && Matches(s, p)[k + 1].start == Matches(s, p)[k].end + 1
    decreases |s| - p
  {
    if p < |s| {
      if TagAt(s, p) {
        var e := MatchEnd(s, p);
        MatchesAfterBoundary(s, e);
        MatchesAdjacent(s, e);
      } else {
        MatchesAdjacent(s, p + 1);
      }
    }
  }

  /** Inside a match, every newline that is followed by a tag is a turn boundary it does not cross. */
  lemma MatchStopsAtNextTag(s: string, p: nat, j: nat)
    requires TagAt(s, p)
    requires SpaceEnd(s, p + 4) <= j < |s| && s[j] == '\n' && TagAt(s, j + 1)
    ensures MatchEnd(s, p) <= j
  {
    assert BoundaryAt(s, j);
  }

  // ---------------------------------------------------------------------
  // Turns

  /** `match.group(1).strip()` keeps the tag at the front of the turn. */
  lemma StripKeepsTag(x: string)
    requires |x| >= 4 && x[0] == '[' && x[3] == ']'
    ensures |Strip(x)| >= 4 && Strip(x)[..4] == x[..4]
  {
    StripKeepsFront(x, 4);
  }

  /** Spans that lie inside the text. */
  predicate SpansIn(s: string, ms: seq<Span>) {
    forall k :: 0 <= k < |ms| ==> ms[k].start <= ms[k].end <= |s|
  }

  /** `match.group(1)` for each match: the text each span covers. */
  function MatchTexts(s: string, ms: seq<Span>): (r: seq<string>)
    requires SpansIn(s, ms)
  {
    seq(|ms|, k requires 0 <= k < |ms| => s[ms[k].start..ms[k].end])
  }

  /** The stripped texts, dropping empty ones as `if full_turn_text:` does. */
  function TurnsOf(texts: seq<string>): seq<string>
    decreases |texts|
  {
    if texts == [] then []
    else
      var t := Strip(texts[|texts| - 1]);
      TurnsOf(texts[..|texts| - 1]) + (if t != [] then [t] else [])
  }

  /** The turns of a transcript, in text order. */
  function Turns(s: string): seq<string> {
    MatchesWellFormed(s, 0);
    TurnsOf(MatchTexts(s, Matches(s, 0)))
  }

  /** A stripped match is not empty and starts with the match's tag. */
  lemma MatchTurnStartsWithTag(s: string, sp: Span)
    requires TaggedSpan(s, sp)
    ensures Strip(s[sp.start..sp.end]) != []
    ensures StartsWith(Strip(s[sp.start..sp.end]), s[sp.start..sp.start + 4])
  {
    var x := s[sp.start..sp.end];
    StripKeepsTag(x);
    assert x[..4] == s[sp.start..sp.start + 4];
  }

  /** Every text stripped, none dropped. */
  function StripEach(texts: seq<string>): (r: seq<string>)
    ensures |r| == |texts|
    decreases |texts|
  {
    if texts == [] then [] else StripEach(texts[..|texts| - 1]) + [Strip(texts[|texts| - 1])]
  }

  /** Entry `k` of `StripEach` is text `k` stripped. */
  lemma {:induction false} StripEachAt(texts: seq<string>, k: nat)
    requires k < |texts|
    ensures StripEach(texts)[k] == Strip(texts[k])
    decreases |texts|
  {
    var n := |texts| - 1;
    if k < n {
      var front := texts[..n];
      StripEachAt(front, k);
      assert front[k] == texts[k];
    }
  }

  /** When no text strips to nothing, the turns are the stripped texts, one for one. */
  lemma {:induction false} NothingDropped(texts: seq<string>)
    requires forall k :: 0 <= k < |texts| ==> Strip(texts[k]) != []
    ensures TurnsOf(texts) == StripEach(texts)
    decreases |texts|
  {
    if texts != [] {
      var n := |texts| - 1;
      var front := texts[..n];
      forall k | 0 <= k < n ensures Strip(front[k]) != [] {
        assert front[k] == texts[k];
      }
      NothingDropped(front);
      assert Strip(texts[n]) != [];
    }
  }

  /** The turns of a transcript: one per match, each its stripped text starting with its own tag. */
  lemma TurnsOfTranscript(s: string, k: nat)
    requires k < |Matches(s, 0)|
    ensures MatchOf(s, Matches(s, 0)[k])
    ensures |Turns(s)| == |Matches(s, 0)|
    ensures var sp := Matches(s, 0)[k];
            Turns(s)[k] == Strip(s[sp.start..sp.end]) && StartsWith(Turns(s)[k], s[sp.start..sp.start + 4])
  {
    var ms := Matches(s, 0);
    MatchesWellFormed(s, 0);
    var texts := MatchTexts(s, ms);
    forall i | 0 <= i < |texts| ensures Strip(texts[i]) != [] {
      MatchTurnStartsWithTag(s, ms[i]);
    }
    NothingDropped(texts);
    StripEachAt(texts, k);
    MatchTurnStartsWithTag(s, ms[k]);
  }

  // ---------------------------------------------------------------------
  // Pairing

  predicate IsS1(t: string) { StartsWith(t, S1Tag) }
  predicate IsS2(t: string) { StartsWith(t, S2Tag) }

  /** The chunk an `[S1]` turn followed by an `[S2]` turn yields. */
  function PairedChunk(s1: string, s2: string): string {
    s1 + "\n" + s2 + "\n[S1] "
  }

  /** The chunk an `[S1]` turn with no `[S2]` after it yields. */
  function SoloChunk(s1: string): string {
    s1 + "\n[S2] "
  }

  /** What the pairing loop appends, from the turn at the front onwards. */
  function Pairs(turns: seq<string>): seq<string>
    decreases |turns|
  {
    if turns == [] then []
    else if IsS1(turns[0]) then
      if |turns| > 1 && IsS2(turns[1]) then [PairedChunk(turns[0], turns[1])] + Pairs(turns[2..])
      else [SoloChunk(turns[0])] + Pairs(turns[1..])
    else Pairs(turns[1..])
  }

  /** The `[S1]` turns, in order. */
  function S1Turns(turns: seq<string>): seq<string> {
    if turns == [] then []
    else (if IsS1(turns[0]) then [turns[0]] else []) + S1Turns(turns[1..])
  }

  /** The `[S1]` turns are, indeed, exactly the turns tagged `[S1]`. */
  lemma {:induction false} S1TurnsMembers(turns: seq<string>)
    ensures |S1Turns(turns)| <= |turns|
    ensures forall t :: t in S1Turns(turns) <==> t in turns && IsS1(t)
  {
    if turns != [] {
      S1TurnsMembers(turns[1..]);
      assert turns == [turns[0]] + turns[1..];
    }
  }

  /** A paired chunk begins with its `[S1]` turn. */
  lemma PairedChunkStart(s1: string, s2: string)
    ensures StartsWith(PairedChunk(s1, s2), s1)
  {
    StartsWithConcat(s1, "\n" + s2 + "\n[S1] ");
    assert PairedChunk(s1, s2) == s1 + ("\n" + s2 + "\n[S1] ");
  }

  /** A solo chunk begins with its `[S1]` turn. */
  lemma SoloChunkStart(s1: string)
    ensures StartsWith(SoloChunk(s1), s1)
  {
    StartsWithConcat(s1, "\n[S2] ");
  }

  /** No turn carries both tags. */
  lemma S1IsNotS2(t: string)
    requires IsS2(t)
    ensures !IsS1(t)
  {
    assert t[2] == S2Tag[2];
  }

  /** Chunk `k` begins with turn `k`, for every `k`, and there are as many chunks as turns. */
  predicate ChunksFollow(chunks: seq<string>, heads: seq<string>) {
    |chunks| == |heads| && forall k :: 0 <= k < |chunks| ==> StartsWith(chunks[k], heads[k])
  }

  lemma ChunksFollowCons(c: string, t: string, chunks: seq<string>, heads: seq<string>)
    requires StartsWith(c, t) && ChunksFollow(chunks, heads)
    ensures ChunksFollow([c] + chunks, [t] + heads)
  {
    var cs, hs := [c] + chunks, [t] + heads;
    forall k | 1 <= k < |cs| ensures StartsWith(cs[k], hs[k]) {
      assert cs[k] == chunks[k - 1] && hs[k] == heads[k - 1];
    }
  }

  /**
   * One chunk per `[S1]` turn, in turn order, each beginning with its
   * `[S1]` turn; so every chunk starts with `[S1]`.
   */
  lemma {:induction false} PairsFollowS1Turns(turns: seq<string>)
    ensures ChunksFollow(Pairs(turns), S1Turns(turns))
    decreases |turns|
  {
    if turns == [] {
    } else if IsS1(turns[0]) && |turns| > 1 && IsS2(turns[1]) {
      S1IsNotS2(turns[1]);
      assert S1Turns(turns[1..]) == S1Turns(turns[2..]) by {
        assert turns[1..][1..] == turns[2..];
      }
      PairsFollowS1Turns(turns[2..]);
      PairedChunkStart(turns[0], turns[1]);
      ChunksFollowCons(PairedChunk(turns[0], turns[1]), turns[0], Pairs(turns[2..]), S1Turns(turns[2..]));
    } else if IsS1(turns[0]) {
      PairsFollowS1Turns(turns[1..]);
      SoloChunkStart(turns[0]);
      ChunksFollowCons(SoloChunk(turns[0]), turns[0], Pairs(turns[1..]), S1Turns(turns[1..]));
    } else {
      PairsFollowS1Turns(turns[1..]);
    }
  }

  /** Every chunk starts with `[S1]`. */
  lemma ChunksStartWithS1(turns: seq<string>, k: nat)
    requires k < |Pairs(turns)|
    ensures StartsWith(Pairs(turns)[k], S1Tag)
  {
    PairsFollowS1Turns(turns);
    S1TurnsMembers(turns);
    assert S1Turns(turns)[k] in S1Turns(turns);
    StartsWithTrans(Pairs(turns)[k], S1Turns(turns)[k], S1Tag);
  }

  /** An `[S1]` turn directly followed by an `[S2]` turn forms one chunk, and that `[S2]` is consumed. */
  lemma PairsConsumeS2(s1: string, s2: string, rest: seq<string>)
    requires IsS1(s1) && IsS2(s2)
    ensures Pairs([s1, s2] + rest) == [s1 + "\n" + s2 + "\n[S1] "] + Pairs(rest)
  {
    assert ([s1, s2] + rest)[2..] == rest;
  }

  /** An `[S1]` turn not followed by an `[S2]` turn forms a chunk of its own. */
  lemma PairsSoloS1(s1: string, rest: seq<string>)
    requires IsS1(s1)
    requires rest == [] || !IsS2(rest[0])
    ensures Pairs([s1] + rest) == [s1 + "\n[S2] "] + Pairs(rest)
  {
    assert ([s1] + rest)[1..] == rest;
  }

  /** Pairing distributes over a split after a turn that is not `[S1]`. */
  lemma {:induction false} PairsAppend(a: seq<string>, b: seq<string>)
    requires a == [] || !IsS1(a[|a| - 1])
    ensures Pairs(a + b) == Pairs(a) + Pairs(b)
    decreases |a|
  {
    if a == [] {
      assert a + b == b;
    } else if IsS1(a[0]) && |a| > 1 && IsS2(a[1]) {
      assert (a + b)[2..] == a[2..] + b;
      PairsAppend(a[2..], b);
    } else {
      assert (a + b)[1..] == a[1..] + b;
      assert IsS1(a[0]) ==> |a| > 1;
      PairsAppend(a[1..], b);
    }
  }

  /** An `[S2]` turn that does not directly follow an `[S1]` turn is dropped. */
  lemma OrphanS2Dropped(a: seq<string>, t: string, b: seq<string>)
    requires IsS2(t)
    requires a == [] || !IsS1(a[|a| - 1])
    ensures Pairs(a + [t] + b) == Pairs(a + b)
  {
    S1IsNotS2(t);
    assert a + [t] + b == a + ([t] + b);
    PairsAppend(a, [t] + b);
    assert ([t] + b)[1..] == b;
    PairsAppend(a, b);
  }

  /** The `while` loop: walks the turns with index `i`, skipping an `[S2]` it has paired. */
  method PairTurns(turns: seq<string>) returns (pairs: seq<string>)
    ensures pairs == Pairs(turns)
  {
    pairs := [];
    var i := 0;
    while i < |turns|
      invariant 0 <= i <= |turns|
      invariant pairs + Pairs(turns[i..]) == Pairs(turns)
      decreases |turns| - i
    {
      var current := turns[i];
      ghost var before := turns[i..];
      if StartsWith(current, S1Tag) {
        var pairText := current;
        if i + 1 < |turns| && StartsWith(turns[i + 1], S2Tag) {
          pairText := pairText + "\n" + turns[i + 1];
          pairText := pairText + "\n[S1] ";
          assert before[2..] == turns[i + 2..];
          i := i + 1;
        } else {
          pairText := pairText + "\n[S2] ";
          assert before[1..] == turns[i + 1..];
        }
        pairs := pairs + [pairText];
      } else {
        assert before[1..] == turns[i + 1..];
      }
      i := i + 1;
    }
  }

  /** One more match text adds its stripped form when that is not empty. */
  lemma TurnsOfSnoc(texts: seq<string>, j: nat)
    requires j < |texts|
    ensures TurnsOf(texts[..j + 1]) == TurnsOf(texts[..j]) + (if Strip(texts[j]) != [] then [Strip(texts[j])] else [])
  {
    assert texts[..j + 1][..j] == texts[..j];
  }

  /** The `finditer` loop: appends each non-empty stripped match. */
  method CollectTurns(text: string) returns (turns: seq<string>)
    ensures turns == Turns(text)
  {
    var ms := Matches(text, 0);
    MatchesWellFormed(text, 0);
    ghost var texts := MatchTexts(text, ms);
    turns := [];
    var j := 0;
    while j < |ms|
      invariant 0 <= j <= |ms|
      invariant turns == TurnsOf(texts[..j])
      decreases |ms| - j
    {
      var fullTurnText := Strip(text[ms[j].start..ms[j].end]);
      TurnsOfSnoc(texts, j);
      if fullTurnText != [] {
        turns := turns + [fullTurnText];
      }
      j := j + 1;
    }
    assert texts[..|ms|] == texts;
  }

  /** `parse_transcript_into_s1_s2_pairs(transcript_text)`. */
  method ParseTranscriptIntoPairs(text: string) returns (pairs: seq<string>)
    ensures pairs == Pairs(Turns(text))
  {
    var turns := CollectTurns(text);
    pairs := PairTurns(turns);
  }
}
