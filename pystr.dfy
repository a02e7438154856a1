/**
 * The parts of Python's `str` that the pipeline relies on, with Python's
 * semantics: which characters count as whitespace for `strip()` and for the
 * regular-expression class `\s`, `startswith`, the `in` operator, `find`,
 * `rfind`, `lower()` (ASCII letters only), `join`, `split` and `replace`.
 */
module PyStr {

  /**
   * `c.isspace()` for a Python str: general category Zs or bidirectional
   * class WS, B or S. The same set is what `\s` matches in a str pattern and
   * what `strip()` removes. U+FEFF (the byte order mark) is not in it.
   */
  predicate IsSpace(c: char) {
    ('\t' <= c <= '\r') || ('\U{1C}' <= c <= '\U{1F}') || c == ' '
    || c == '\U{85}' || c == '\U{A0}' || c == '\U{1680}'
    || ('\U{2000}' <= c <= '\U{200A}') || c == '\U{2028}' || c == '\U{2029}'
    || c == '\U{202F}' || c == '\U{205F}' || c == '\U{3000}'
  }

  /** Where a greedy `\s*` that starts at `k` stops. */
  function SpaceEnd(t: string, k: nat): (e: nat)
    requires k <= |t|
    ensures k <= e <= |t|
    ensures forall i :: k <= i < e ==> IsSpace(t[i])
    ensures e == |t| || !IsSpace(t[e])
    decreases |t| - k
  {
    if k < |t| && IsSpace(t[k]) then SpaceEnd(t, k + 1) else k
  }

  /** Every character of `s` is whitespace (vacuously true of ""). */
  predicate AllSpace(s: string) {
    forall i :: 0 <= i < |s| ==> IsSpace(s[i])
  }

  /** Neither end of `s` is whitespace: what `strip()` returns. */
  predicate IsStripped(s: string) {
    s == [] || (!IsSpace(s[0]) && !IsSpace(s[|s| - 1]))
  }

  /** Where the whitespace run that ends at `k` starts, scanning backwards. */
  function SpaceStart(t: string, k: nat): (b: nat)
    requires k <= |t|
    ensures b <= k
    ensures forall i :: b <= i < k ==> IsSpace(t[i])
    ensures b == 0 || !IsSpace(t[b - 1])
    decreases k
  {
    if k > 0 && IsSpace(t[k - 1]) then SpaceStart(t, k - 1) else k
  }

  /** A whitespace run followed by a non-space (or the end) is where `SpaceEnd` stops. */
  lemma {:induction false} SpaceEndAt(t: string, k: nat, e: nat)
    requires k <= e <= |t|
    requires forall i :: k <= i < e ==> IsSpace(t[i])
    requires e == |t| || !IsSpace(t[e])
    ensures SpaceEnd(t, k) == e
    decreases e - k
  {
    if k < e {
      SpaceEndAt(t, k + 1, e);
    }
  }

  /** A whitespace run preceded by a non-space (or the start) is where `SpaceStart` stops. */
  lemma {:induction false} SpaceStartAt(t: string, b: nat, k: nat)
    requires b <= k <= |t|
    requires forall i :: b <= i < k ==> IsSpace(t[i])
    requires b == 0 || !IsSpace(t[b - 1])
    ensures SpaceStart(t, k) == b
    decreases k - b
  {
    if b < k {
      SpaceStartAt(t, b, k - 1);
    }
  }

  /** `s.lstrip()`: drops the leading whitespace run. */
  function LStrip(s: string): string {
    s[SpaceEnd(s, 0)..]
  }

  /** `s.rstrip()`: drops the trailing whitespace run. */
  function RStrip(s: string): string {
    s[..SpaceStart(s, |s|)]
  }

  /**
   * `s.strip()`: the result starts and ends with a non-whitespace
   * character, and it is empty exactly when `s` is whitespace only.
   * `StripPadded` shows that it is the text between the whitespace padding.
   */
  function Strip(s: string): (r: string)
    ensures IsStripped(r)
    ensures |r| <= |s|
    ensures r == [] <==> AllSpace(s)
  {
    var a := SpaceEnd(s, 0);
    if a == |s| then
      []
    else
      var l := s[a..];
      var b := SpaceStart(l, |l|);
      assert l[0] == s[a];
      assert l[b - 1] == s[a + b - 1];
      l[..b]
  }

  /** Text whose first and `n`-th characters are not whitespace keeps its first `n` characters when stripped. */
  lemma StripKeepsFront(s: string, n: nat)
    requires 0 < n <= |s| && !IsSpace(s[0]) && !IsSpace(s[n - 1])
    ensures |Strip(s)| >= n && Strip(s)[..n] == s[..n]
  {
    assert SpaceEnd(s, 0) == 0;
    assert s[0..] == s;
    assert SpaceStart(s, |s|) >= n;
  }

  /**
   * A head that starts with a non-space, a blank and a stripped non-empty
   * text: the whole is already stripped, and what follows the head strips to
   * the text.
   */
  lemma StripHeadBlankText(h: string, t: string)
    requires h != [] && !IsSpace(h[0]) && t != [] && IsStripped(t)
    ensures Strip(h + " " + t) == h + " " + t
    ensures Strip((h + " " + t)[|h|..]) == t
  {
    var s := h + " " + t;
    assert s[0] == h[0];
    assert s[|s| - 1] == t[|t| - 1];
    StripStripped(s);
    assert s[|h|..] == " " + t;
    StripAfterBlank(t);
  }

  /** Stripping a blank followed by a stripped text gives the text. */
  lemma StripAfterBlank(t: string)
    requires IsStripped(t)
    ensures Strip(" " + t) == t
  {
    StripPadded(" ", t, []);
    assert " " + t + [] == " " + t;
  }

  /** Stripping text that is already stripped and padded only by whitespace gives the text back. */
  lemma StripPadded(pre: string, t: string, post: string)
    requires AllSpace(pre) && AllSpace(post) && IsStripped(t)
    ensures Strip(pre + t + post) == t
  {
    var s := pre + t + post;
    if t == [] {
      assert AllSpace(s) by {
        forall i | 0 <= i < |s| ensures IsSpace(s[i]) {
          if i < |pre| { assert s[i] == pre[i]; } else { assert s[i] == post[i - |pre|]; }
        }
      }
    } else {
      forall i | 0 <= i < |pre| ensures IsSpace(s[i]) {
        assert s[i] == pre[i];
      }
      assert s[|pre|] == t[0];
      SpaceEndAt(s, 0, |pre|);
      var l := s[|pre|..];
      assert l == t + post;
      forall i | |t| <= i < |l| ensures IsSpace(l[i]) {
        assert l[i] == post[i - |t|];
      }
      assert l[|t| - 1] == t[|t| - 1];
      SpaceStartAt(l, |t|, |l|);
      assert l[..|t|] == t;
    }
  }


  /** `s.startswith(prefix)`. */
  predicate StartsWith(s: string, prefix: string) {
    |prefix| <= |s| && s[..|prefix|] == prefix
  }

  /** `s.endswith(suffix)`. */
  predicate EndsWith(s: string, suffix: string) {
    |suffix| <= |s| && s[|s| - |suffix|..] == suffix
  }

  /** A string starts with any of its prefixes. */
  lemma StartsWithConcat(x: string, y: string)
    ensures StartsWith(x + y, x)
  {
    assert (x + y)[..|x|] == x;
  }

  /** A prefix of a prefix is a prefix. */
  lemma StartsWithTrans(a: string, b: string, c: string)
    requires StartsWith(a, b) && StartsWith(b, c)
    ensures StartsWith(a, c)
  {
    assert a[..|c|] == a[..|b|][..|c|];
  }

  /** `sub` occurs in `s` at index `i`. */
  predicate OccursAt(s: string, sub: string, i: int) {
    0 <= i && i + |sub| <= |s| && s[i..i + |sub|] == sub
  }

  /** `s.find(sub, k)`: the least index `i >= k` where `sub` occurs, or -1. */
  function FindFrom(s: string, sub: string, k: nat): (r: int)
    ensures r == -1 || (k <= r && OccursAt(s, sub, r))
    ensures r == -1 ==> forall i :: k <= i ==> !OccursAt(s, sub, i)
    ensures r != -1 ==> forall i :: k <= i < r ==> !OccursAt(s, sub, i)
    decreases |s| - k
  {
    if k + |sub| > |s| then -1
    else if s[k..k + |sub|] == sub then k
    else FindFrom(s, sub, k + 1)
  }

  /** `s.find(sub)`. */
  function Find(s: string, sub: string): (r: int)
    ensures r == -1 || OccursAt(s, sub, r)
    ensures r == -1 ==> forall i :: 0 <= i ==> !OccursAt(s, sub, i)
    ensures r != -1 ==> forall i :: 0 <= i < r ==> !OccursAt(s, sub, i)
  {
    FindFrom(s, sub, 0)
  }

  /** Python's `sub in s`. */
  predicate Contains(s: string, sub: string) {
    Find(s, sub) != -1
  }

  /** `Contains` holds exactly when `sub` occurs somewhere in `s`. */
  lemma ContainsIff(s: string, sub: string)
    ensures Contains(s, sub) <==> exists i :: OccursAt(s, sub, i)
  {
  }

  /** An occurrence at some index makes `sub in s` true. */
  lemma OccursContains(s: string, sub: string, i: int)
    requires OccursAt(s, sub, i)
    ensures Contains(s, sub)
  {
  }

  /** Every string contains itself. */
  lemma ContainsSelf(s: string)
    ensures Contains(s, s)
  {
    assert s[0..|s|] == s;
    OccursContains(s, s, 0);
  }

  /** Whatever `x` contains, `pre + x + post` contains too. */
  lemma ContainsWithin(pre: string, x: string, post: string, sub: string)
    requires Contains(x, sub)
    ensures Contains(pre + x + post, sub)
  {
    var i := Find(x, sub);
    assert (pre + x + post)[|pre| + i..|pre| + i + |sub|] == x[i..i + |sub|];
    OccursContains(pre + x + post, sub, |pre| + i);
  }

  /** Whatever `x` contains, `x + y` contains too. */
  lemma ContainsInFirst(x: string, y: string, sub: string)
    requires Contains(x, sub)
    ensures Contains(x + y, sub)
  {
    ContainsWithin([], x, y, sub);
    assert [] + x + y == x + y;
  }

  /** Whatever `y` contains, `x + y` contains too. */
  lemma ContainsInLast(x: string, y: string, sub: string)
    requires Contains(y, sub)
    ensures Contains(x + y, sub)
  {
    ContainsWithin(x, y, [], sub);
    assert x + y + [] == x + y;
  }

  /** `s.find(c)` for one character. */
  function FindChar(s: string, c: char): (r: int)
    ensures -1 <= r < |s|
    ensures r == -1 <==> c !in s
    ensures r != -1 ==> s[r] == c && c !in s[..r]
  {
    if s == [] then -1
    else if s[0] == c then 0
    else var k := FindChar(s[1..], c); (if k == -1 then -1 else k + 1)
  }

  /** `s.rfind(c)` for one character. */
  function RFindChar(s: string, c: char): (r: int)
    ensures -1 <= r < |s|
    ensures r == -1 <==> c !in s
    ensures r != -1 ==> s[r] == c && c !in s[r + 1..]
  {
    if s == [] then -1
    else if s[|s| - 1] == c then |s| - 1
    else RFindChar(s[..|s| - 1], c)
  }

  /** `c.lower()` for ASCII letters; every other character is left alone here. */
  function LowerChar(c: char): char {
    if 'A' <= c <= 'Z' then (c as int + 32) as char else c
  }

  /** `s.lower()` restricted to ASCII case mapping. */
  function Lower(s: string): (r: string)
    ensures |r| == |s|
    ensures forall i :: 0 <= i < |s| ==> r[i] == LowerChar(s[i])
  {
    seq(|s|, i requires 0 <= i < |s| => LowerChar(s[i]))
  }

  /** `sep.join(parts)`. */
  function Join(sep: string, parts: seq<string>): string {
    if parts == [] then ""
    else if |parts| == 1 then parts[0]
    else parts[0] + sep + Join(sep, parts[1..])
  }

  /** Joining a list extended by one element appends the separator and that element. */
  lemma {:induction false} JoinSnoc(sep: string, parts: seq<string>, x: string)
    requires parts != []
    ensures Join(sep, parts + [x]) == Join(sep, parts) + sep + x
  {
    if |parts| == 1 {
      assert parts + [x] == [parts[0], x];
    } else {
      assert (parts + [x])[1..] == parts[1..] + [x];
      JoinSnoc(sep, parts[1..], x);
    }
  }

  /** Each part of a join occurs in the joined string. */
  lemma {:induction false} JoinContainsPart(sep: string, parts: seq<string>, i: int)
    requires 0 <= i < |parts|
    ensures Contains(Join(sep, parts), parts[i])
  {
    if |parts| == 1 {
      ContainsSelf(parts[0]);
    } else if i == 0 {
      ContainsSelf(parts[0]);
      ContainsWithin([], parts[0], sep + Join(sep, parts[1..]), parts[0]);
      assert [] + parts[0] + (sep + Join(sep, parts[1..])) == Join(sep, parts);
    } else {
      JoinContainsPart(sep, parts[1..], i - 1);
      ContainsWithin(parts[0] + sep, Join(sep, parts[1..]), [], parts[i]);
      assert parts[0] + sep + Join(sep, parts[1..]) + [] == Join(sep, parts);
    }
  }

  /** A join of a non-empty list begins with its first part. */
  lemma JoinStartsWithFirst(sep: string, parts: seq<string>)
    requires parts != []
    ensures StartsWith(Join(sep, parts), parts[0])
  {
    if |parts| > 1 {
      assert Join(sep, parts)[..|parts[0]|] == parts[0];
    }
  }

  /** A join of non-empty parts starts with the first part's first character and ends with the last part's last. */
  lemma JoinEnds(sep: string, parts: seq<string>)
    requires parts != [] && parts[0] != [] && parts[|parts| - 1] != []
    ensures var j := Join(sep, parts);
            j != [] && j[0] == parts[0][0] && j[|j| - 1] == parts[|parts| - 1][|parts[|parts| - 1]| - 1]
  {
    JoinStartsWithFirst(sep, parts);
    var j := Join(sep, parts);
    assert j[0] == j[..|parts[0]|][0];
    var n := |parts| - 1;
    if n > 0 {
      JoinSnoc(sep, parts[..n], parts[n]);
      assert parts[..n] + [parts[n]] == parts;
    }
  }

  /** Stripping leaves text that is already stripped as it is. */
  lemma StripStripped(s: string)
    requires IsStripped(s)
    ensures Strip(s) == s
  {
    StripPadded([], s, []);
    assert [] + s + [] == s;
  }

  /**
   * `s.split(c)` for a one-character separator: the pieces contain no
   * separator and joining them with it gives `s` back.
   */
  function Split(s: string, c: char): (r: seq<string>)
    ensures |r| >= 1
    ensures forall k :: 0 <= k < |r| ==> c !in r[k]
    ensures Join([c], r) == s
    decreases |s|
  {
    var i := FindChar(s, c);
    if i == -1 then [s]
    else
      var head, tail := s[..i], s[i + 1..];
      var rest := Split(tail, c);
      var r := [head] + rest;
      assert r[0] == head && r[1..] == rest;
      assert Join([c], r) == head + [c] + Join([c], rest);
      assert s == head + [c] + tail;
      r
  }

  /** Splitting a join of separator-free pieces gives the pieces back. */
  lemma {:induction false} SplitJoin(parts: seq<string>, c: char)
    requires parts != []
    requires forall k :: 0 <= k < |parts| ==> c !in parts[k]
    ensures Split(Join([c], parts), c) == parts
  {
    if |parts| > 1 {
      var s := Join([c], parts);
      assert s == parts[0] + [c] + Join([c], parts[1..]);
      assert FindChar(s, c) == |parts[0]| by {
        assert s[|parts[0]|] == c;
        assert s[..|parts[0]|] == parts[0];
      }
      assert s[|parts[0]| + 1..] == Join([c], parts[1..]);
      assert s[..|parts[0]|] == parts[0];
      SplitJoin(parts[1..], c);
    }
  }

  /** `s.replace(pat, rep, 1)`: the leftmost occurrence only. */
  function ReplaceFirst(s: string, pat: string, rep: string): string {
    var i := Find(s, pat);
    if i == -1 then s else s[..i] + rep + s[i + |pat|..]
  }

  /** Removing the first occurrence of a prefix the text starts with drops exactly that prefix. */
  lemma ReplaceFirstPrefix(s: string, p: string)
    requires StartsWith(s, p)
    ensures ReplaceFirst(s, p, "") == s[|p|..]
  {
    assert OccursAt(s, p, 0);
    assert Find(s, p) == 0;
  }

  /** `s.replace(pat, rep)`: every non-overlapping occurrence, scanning from the left. */
  function ReplaceAll(s: string, pat: string, rep: string): string
    requires |pat| > 0
    decreases |s|
  {
    if |s| < |pat| then s
    else if s[..|pat|] == pat then rep + ReplaceAll(s[|pat|..], pat, rep)
    else [s[0]] + ReplaceAll(s[1..], pat, rep)
  }

  /** A string without `sub` has no `sub` once its first character is dropped. */
  lemma ContainsTail(s: string, sub: string)
    requires |s| > 0 && !Contains(s, sub)
    ensures !Contains(s[1..], sub)
  {
    var k := Find(s[1..], sub);
    if k != -1 {
      assert s[1..][k..k + |sub|] == s[k + 1..k + 1 + |sub|];
      assert OccursAt(s, sub, k + 1);
    }
  }

  /** A string without any occurrence of `pat` is returned unchanged by `replace`. */
  lemma {:induction false} ReplaceAllAbsent(s: string, pat: string, rep: string)
    requires |pat| > 0
    requires !Contains(s, pat)
    ensures ReplaceAll(s, pat, rep) == s
  {
    if |s| >= |pat| {
      assert !OccursAt(s, pat, 0);
      ContainsTail(s, pat);
      ReplaceAllAbsent(s[1..], pat, rep);
    }
  }

  /**
   * When the first character of `pat` does not recur inside `pat`, a text
   * that contains `pat` only as its suffix has exactly that suffix replaced.
   */
  lemma {:induction false} ReplaceAllSuffix(base: string, pat: string, rep: string)
    requires |pat| > 0
    requires forall k :: 0 < k < |pat| ==> pat[k] != pat[0]
    requires !Contains(base, pat)
    ensures ReplaceAll(base + pat, pat, rep) == base + rep
  {
    var s := base + pat;
    if base == [] {
      assert s == pat;
      assert s[|pat|..] == [];
    } else {
      SuffixNotAtFront(base, pat);
      var c, tail := base[0], base[1..];
      assert s[0] == c;
      assert s[1..] == tail + pat;
      ContainsTail(base, pat);
      ReplaceAllSuffix(tail, pat, rep);
      assert ReplaceAll(s, pat, rep) == [c] + (tail + rep);
      assert base == [c] + tail;
      assert [c] + (tail + rep) == ([c] + tail) + rep;
    }
  }

  /** A suffix `pat` of a non-empty text without `pat` whose first character does not recur does not also start the text. */
  lemma SuffixNotAtFront(base: string, pat: string)
    requires |pat| > 0 && base != []
    requires forall k :: 0 < k < |pat| ==> pat[k] != pat[0]
    requires !Contains(base, pat)
    ensures (base + pat)[..|pat|] != pat
  {
    var s := base + pat;
    if |base| >= |pat| {
      assert s[..|pat|] == base[..|pat|];
      assert !OccursAt(base, pat, 0);
    } else {
      // the suffix's first character would have to sit at a later position of `pat`
      assert s[|base|] == pat[0];
    }
  }

  /** `s.count(pat)`: the non-overlapping occurrences that `replace` rewrites, scanning from the left. */
  function Count(s: string, pat: string): nat
    requires |pat| > 0
    decreases |s|
  {
    if |s| < |pat| then 0
    else if s[..|pat|] == pat then 1 + Count(s[|pat|..], pat)
    else Count(s[1..], pat)
  }

  /** `replace` changes the length by the length difference once per occurrence. */
  lemma {:induction false} ReplaceAllLength(s: string, pat: string, rep: string)
    requires |pat| > 0
    ensures |ReplaceAll(s, pat, rep)| == |s| + Count(s, pat) * (|rep| - |pat|)
    decreases |s|
  {
    if |s| >= |pat| {
      if s[..|pat|] == pat {
        ReplaceAllLength(s[|pat|..], pat, rep);
        var c := Count(s[|pat|..], pat);
        assert (1 + c) * (|rep| - |pat|) == (|rep| - |pat|) + c * (|rep| - |pat|);
      } else {
        ReplaceAllLength(s[1..], pat, rep);
      }
    }
  }

  /** A text that contains `pat` has at least one occurrence for `replace` to rewrite. */
  lemma {:induction false} ContainsCounted(s: string, pat: string)
    requires |pat| > 0 && Contains(s, pat)
    ensures Count(s, pat) >= 1
    decreases |s|
  {
    var i := Find(s, pat);
    assert OccursAt(s, pat, i);
    if s[..|pat|] != pat {
      assert i > 0;
      assert s[1..][i - 1..i - 1 + |pat|] == s[i..i + |pat|];
      OccursContains(s[1..], pat, i - 1);
      ContainsCounted(s[1..], pat);
    }
  }

  /** `strip()` keeps a slice of its input: whitespace only before and after it. */
  lemma StripSpan(s: string) returns (a: nat, e: nat)
    ensures a <= e <= |s| && Strip(s) == s[a..e]
    ensures forall i :: 0 <= i < a ==> IsSpace(s[i])
    ensures forall i :: e <= i < |s| ==> IsSpace(s[i])
  {
    a := SpaceEnd(s, 0);
    if a == |s| {
      e := a;
    } else {
      var l := s[a..];
      var b := SpaceStart(l, |l|);
      e := a + b;
      assert Strip(s) == l[..b];
      assert l[..b] == s[a..e];
      forall i | e <= i < |s| ensures IsSpace(s[i]) {
        assert s[i] == l[i - a];
      }
    }
  }

  /** Stripping keeps every occurrence of a text that neither starts nor ends with whitespace. */
  lemma StripKeepsContained(s: string, sub: string)
    requires sub != [] && !IsSpace(sub[0]) && !IsSpace(sub[|sub| - 1])
    requires Contains(s, sub)
    ensures Contains(Strip(s), sub)
  {
    var i := Find(s, sub);
    assert OccursAt(s, sub, i);
    assert s[i] == sub[0] && s[i + |sub| - 1] == sub[|sub| - 1];
    var a, e := StripSpan(s);
    assert a <= i && i + |sub| <= e;
    OccursInSlice(s, sub, i, a, e);
    OccursContains(s[a..e], sub, i - a);
  }

  /** An occurrence inside a slice is an occurrence in the slice, shifted by its start. */
  lemma OccursInSlice(s: string, sub: string, i: int, a: nat, e: nat)
    requires OccursAt(s, sub, i) && a <= i && i + |sub| <= e <= |s|
    ensures OccursAt(s[a..e], sub, i - a)
  {
    var t := s[a..e];
    var j := i - a;
    assert |t| == e - a;
    assert j + |sub| <= |t|;
    var x, y := t[j..j + |sub|], s[i..i + |sub|];
    assert forall k :: 0 <= k < |x| ==> x[k] == y[k];
    assert x == y;
  }
}
