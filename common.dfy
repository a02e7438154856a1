/**
 * Shared building blocks: the Option type every component uses at its
 * boundary instead of Python's `None`, and a few facts about sequence
 * concatenation that the prompt and parser proofs lean on.
 */
module Common {

  /** `None` stands for Python's `None` (or a failure signal); `Some(v)` for a value. */
  datatype Option<+T> = None | Some(value: T)

  /** Python's truth value of a `str | None`: present and not empty. */
  predicate TruthyText(v: Option<string>) {
    v.Some? && v.value != ""
  }

  /** Python's `min` on two integers. */
  function Min(a: int, b: int): (r: int)
    ensures r <= a && r <= b && (r == a || r == b)
  {
    if a <= b then a else b
  }

  /** The first `n` elements of `s`, or all of it when it is shorter (Python's `s[:n]` for n >= 0). */
  function Take<T>(s: seq<T>, n: nat): (r: seq<T>)
    ensures |r| == Min(n, |s|)
    ensures r == s[..|r|]
  {
    if n <= |s| then s[..n] else s
  }

  /** A prefix one element longer is the prefix with that element appended. */
  lemma TakeSnoc<T>(s: seq<T>, i: nat)
    requires i < |s|
    ensures s[..i + 1] == s[..i] + [s[i]]
  {
  }

  /** Dropping the last element of a concatenation with a non-empty right part. */
  lemma DropLastOfConcat<T>(a: seq<T>, b: seq<T>)
    requires b != []
    ensures (a + b)[..|a + b| - 1] == a + b[..|b| - 1]
    ensures (a + b)[|a + b| - 1] == b[|b| - 1]
  {
  }

  /** The middle part of a three-way concatenation can be read back by position. */
  lemma MiddleOfConcat<T>(a: seq<T>, b: seq<T>, c: seq<T>)
    ensures (a + b + c)[|a|..|a| + |b|] == b
  {
    assert (a + b + c) == a + (b + c);
    assert (a + (b + c))[|a|..] == b + c;
    assert (b + c)[..|b|] == b;
  }

  /** Two concatenations with the same fixed prefix and suffix agree only when their middles agree. */
  lemma MiddleIsDetermined<T>(a: seq<T>, b1: seq<T>, b2: seq<T>, c: seq<T>)
    requires a + b1 + c == a + b2 + c
    ensures b1 == b2
  {
    MiddleOfConcat(a, b1, c);
    MiddleOfConcat(a, b2, c);
  }

  /** A common prefix cancels. */
  lemma PrefixCancels<T>(a: seq<T>, b1: seq<T>, b2: seq<T>)
    requires a + b1 == a + b2
    ensures b1 == b2
  {
    assert b1 == (a + b1)[|a|..];
    assert b2 == (a + b2)[|a|..];
  }

  /** Python's `enumerate(xs)`: each element with its index. */
  function Enumerate<T>(xs: seq<T>): seq<(nat, T)> {
    seq(|xs|, k requires 0 <= k < |xs| => (k, xs[k]))
  }

  /**
   * The `Some` results of `f` over `xs`, in order: what a loop builds that
   * appends `f(x)` for each `x` when there is one.
   */
  function FilterMap<A, B>(f: A -> Option<B>, xs: seq<A>): seq<B>
    decreases |xs|
  {
    if xs == [] then []
    else
      var r := f(xs[|xs| - 1]);
      FilterMap(f, xs[..|xs| - 1]) + (if r.Some? then [r.value] else [])
  }

  /** One more element appends its result, if any. */
  lemma FilterMapSnoc<A, B>(f: A -> Option<B>, xs: seq<A>, x: A)
    ensures FilterMap(f, xs + [x]) == FilterMap(f, xs) + (if f(x).Some? then [f(x).value] else [])
  {
    assert (xs + [x])[..|xs|] == xs;
  }

  /** The results of a concatenation are the concatenated results: order is kept. */
  lemma {:induction false} FilterMapAppend<A, B>(f: A -> Option<B>, xs: seq<A>, ys: seq<A>)
    ensures FilterMap(f, xs + ys) == FilterMap(f, xs) + FilterMap(f, ys)
    decreases |ys|
  {
    if ys == [] {
      assert xs + ys == xs;
    } else {
      var n := |ys| - 1;
      assert (xs + ys)[..|xs + ys| - 1] == xs + ys[..n];
      FilterMapAppend(f, xs, ys[..n]);
    }
  }

  /** At most one result per element. */
  lemma {:induction false} FilterMapLength<A, B>(f: A -> Option<B>, xs: seq<A>)
    ensures |FilterMap(f, xs)| <= |xs|
    decreases |xs|
  {
    if xs != [] {
      FilterMapLength(f, xs[..|xs| - 1]);
    }
  }

  /** Every result comes from some element, and every element with a result contributes it. */
  lemma {:induction false} FilterMapMembers<A, B>(f: A -> Option<B>, xs: seq<A>, y: B)
    ensures y in FilterMap(f, xs) <==> exists k :: 0 <= k < |xs| && f(xs[k]) == Some(y)
    decreases |xs|
  {
    if xs != [] {
      var n := |xs| - 1;
      var front := xs[..n];
      FilterMapMembers(f, front, y);
      if exists k :: 0 <= k < n && f(front[k]) == Some(y) {
        var k :| 0 <= k < n && f(front[k]) == Some(y);
        assert xs[k] == front[k];
      }
      if exists k :: 0 <= k < |xs| && f(xs[k]) == Some(y) {
        var k :| 0 <= k < |xs| && f(xs[k]) == Some(y);
        if k < n {
          assert front[k] == xs[k];
        }
      }
    }
  }

  /** When every element has a result, the results correspond one for one. */
  lemma {:induction false} FilterMapAll<A, B>(f: A -> Option<B>, xs: seq<A>)
    requires forall k :: 0 <= k < |xs| ==> f(xs[k]).Some?
    ensures |FilterMap(f, xs)| == |xs|
    ensures forall k :: 0 <= k < |xs| ==> FilterMap(f, xs)[k] == f(xs[k]).value
    decreases |xs|
  {
    if xs != [] {
      var n := |xs| - 1;
      var front := xs[..n];
      assert forall k :: 0 <= k < n ==> front[k] == xs[k];
      FilterMapAll(f, front);
    }
  }
}
