/**
 * Keyword retrieval of knowledge-base documents for the ideal-call prompt.
 *
 * The knowledge directory is a map from file name to what reading the file
 * gives: `None` for a missing or unreadable file, `Some(content)` otherwise.
 * A file whose name is not a key is missing.
 */
module Retriever {
  import opened Common
  import opened PyStr
  import opened Json
  import opened Report

  /** `KEYWORD_TO_FILE_MAP`, in insertion order (the order `dict.items()` yields). */
  const KeywordToFileMap: seq<(string, string)> := [
    ("introduction", "sop_introduction.txt"),
    ("introduce", "sop_introduction.txt"),
    ("verify", "sop_verification.txt"),
    ("verification", "sop_verification.txt"),
    ("spelling", "sop_verification.txt"),
    ("phone number", "sop_verification.txt"),
    ("empathy", "examples_empathy.txt"),
    ("empathetic", "examples_empathy.txt"),
    ("relatable", "examples_empathy.txt"),
    ("mva", "checklist_mva.txt"),
    ("accident", "checklist_mva.txt"),
    ("out-of-network", "info_out_of_network.txt"),
    ("disclosure", "info_out_of_network.txt")
  ]

  /** The default `max_chunks`. */
  const DefaultMaxChunks: int := 3

  type KnowledgeBase = map<string, Option<string>>

  /** `load_knowledge_chunk(filename)`: the file's text, or `None` when it is missing or unreadable. */
  function LoadChunk(kb: KnowledgeBase, filename: string): Option<string> {
    if filename in kb then kb[filename] else None
  }

  /** `if content:` after loading — the file exists, was read, and is not empty. */
  predicate Loadable(kb: KnowledgeBase, filename: string) {
    LoadChunk(kb, filename).Some? && LoadChunk(kb, filename).value != ""
  }

  /** The text of a file, for one that is loadable. */
  function Content(kb: KnowledgeBase, filename: string): string {
    match LoadChunk(kb, filename)
    case Some(c) => c
    case None => ""
  }

  /** The chunk the retriever builds around a document. */
  function Chunk(filename: string, content: string): string {
    "--- Relevant Knowledge: " + filename + " ---\n" + content + "\n--- End Knowledge ---"
  }

  /** The chunks of a list of retrieved files, in that order. */
  function ChunksOf(files: seq<string>, kb: KnowledgeBase): (r: seq<string>)
    ensures |r| == |files|
    ensures forall i :: 0 <= i < |files| ==> r[i] == Chunk(files[i], Content(kb, files[i]))
  {
    seq(|files|, i requires 0 <= i < |files| => Chunk(files[i], Content(kb, files[i])))
  }

  // ---------------------------------------------------------------------
  // The reference definition: candidates in scan order, first occurrences,
  // cut at the limit.

  /** Whether the keyword of a map entry occurs in a lower-cased text and its file loads. */
  predicate IsHit(lower: string, entry: (string, string), kb: KnowledgeBase) {
    Contains(lower, entry.0) && Loadable(kb, entry.1)
  }

  /** The loadable files a lower-cased text selects, in map order (repetitions kept). */
  function Hits(lower: string, m: seq<(string, string)>, kb: KnowledgeBase): seq<string> {
    if m == [] then []
    else
      var last := m[|m| - 1];
      Hits(lower, m[..|m| - 1], kb) + (if IsHit(lower, last, kb) then [last.1] else [])
  }

  /** The loadable files all texts select through map `m`, text by text. */
  function AllHits(texts: seq<string>, m: seq<(string, string)>, kb: KnowledgeBase): seq<string> {
    if texts == [] then []
    else AllHits(texts[..|texts| - 1], m, kb) + Hits(Lower(texts[|texts| - 1]), m, kb)
  }

  /** No element occurs twice. */
  predicate Distinct(s: seq<string>) {
    forall i, j :: 0 <= i < j < |s| ==> s[i] != s[j]
  }

  /** `acc` extended by the elements of `xs` it does not hold yet, in order. */
  function AppendNew(acc: seq<string>, xs: seq<string>): (r: seq<string>)
    ensures |acc| <= |r| && r[..|acc|] == acc
    decreases |xs|
  {
    if xs == [] then acc
    else
      var next := if xs[0] in acc then acc else acc + [xs[0]];
      assert next[..|acc|] == acc;
      var r := AppendNew(next, xs[1..]);
      assert r[..|acc|] == r[..|next|][..|acc|];
      r
  }

  /** Feeding `xs` then `ys` is feeding `xs + ys`. */
  lemma {:induction false} AppendNewConcat(acc: seq<string>, xs: seq<string>, ys: seq<string>)
    ensures AppendNew(acc, xs + ys) == AppendNew(AppendNew(acc, xs), ys)
    decreases |xs|
  {
    if xs == [] {
      assert xs + ys == ys;
    } else {
      assert (xs + ys)[0] == xs[0];
      assert (xs + ys)[1..] == xs[1..] + ys;
      var next := if xs[0] in acc then acc else acc + [xs[0]];
      AppendNewConcat(next, xs[1..], ys);
    }
  }

  /** Feeding one more element adds it unless it is already there. */
  lemma AppendNewSnoc(acc: seq<string>, xs: seq<string>, y: string)
    ensures var p := AppendNew(acc, xs);
            AppendNew(acc, xs + [y]) == if y in p then p else p + [y]
  {
    AppendNewConcat(acc, xs, [y]);
  }

  /** Once the first-occurrence list of a prefix reaches the cap, later input does not change the cut. */
  lemma CutOfPrefix(p: seq<string>, rest: seq<string>, cap: nat)
    requires |AppendNew([], p)| >= cap
    ensures Take(AppendNew([], p + rest), cap) == Take(AppendNew([], p), cap)
  {
    AppendNewConcat([], p, rest);
    var q := AppendNew([], p);
    var full := AppendNew(q, rest);
    assert full[..|q|] == q;
    assert full[..cap] == q[..|q|][..cap];
  }

  /** The hits of a split map are the hits of its parts. */
  lemma {:induction false} HitsConcat(lower: string, m1: seq<(string, string)>, m2: seq<(string, string)>, kb: KnowledgeBase)
    ensures Hits(lower, m1 + m2, kb) == Hits(lower, m1, kb) + Hits(lower, m2, kb)
    decreases |m2|
  {
    if m2 == [] {
      assert m1 + m2 == m1;
    } else {
      var m := m1 + m2;
      assert m[..|m| - 1] == m1 + m2[..|m2| - 1];
      assert m[|m| - 1] == m2[|m2| - 1];
      HitsConcat(lower, m1, m2[..|m2| - 1], kb);
    }
  }

  /** The hits of a split list of texts are the hits of its parts. */
  lemma {:induction false} AllHitsConcat(a: seq<string>, b: seq<string>, m: seq<(string, string)>, kb: KnowledgeBase)
    ensures AllHits(a + b, m, kb) == AllHits(a, m, kb) + AllHits(b, m, kb)
    decreases |b|
  {
    if b == [] {
      assert a + b == a;
    } else {
      DropLastOfConcat(a, b);
      AllHitsConcat(a, b[..|b| - 1], m, kb);
    }
  }

  /** Scanning one more text. */
  lemma AllHitsSnoc(texts: seq<string>, ti: nat, m: seq<(string, string)>, kb: KnowledgeBase)
    requires ti < |texts|
    ensures AllHits(texts[..ti + 1], m, kb) == AllHits(texts[..ti], m, kb) + Hits(Lower(texts[ti]), m, kb)
  {
    assert texts[..ti + 1][..ti] == texts[..ti];
  }

  /** Scanning one more map entry. */
  lemma HitsSnoc(lower: string, m: seq<(string, string)>, ki: nat, kb: KnowledgeBase)
    requires ki < |m|
    ensures Hits(lower, m[..ki + 1], kb) == Hits(lower, m[..ki], kb) + (if IsHit(lower, m[ki], kb) then [m[ki].1] else [])
  {
    assert m[..ki + 1][..ki] == m[..ki];
  }

  /** Retrieving one more file appends its chunk. */
  lemma ChunksOfSnoc(files: seq<string>, f: string, kb: KnowledgeBase)
    ensures ChunksOf(files + [f], kb) == ChunksOf(files, kb) + [Chunk(f, Content(kb, f))]
  {
  }

  /** The candidates of one text. */
  lemma AllHitsOne(t: string, m: seq<(string, string)>, kb: KnowledgeBase)
    ensures AllHits([t], m, kb) == Hits(Lower(t), m, kb)
  {
    assert [t][..0] == [];
  }

  /** The candidates of all texts: those before text `ti`, those of text `ti`, and those after it. */
  lemma AllHitsAround(texts: seq<string>, ti: nat, m: seq<(string, string)>, kb: KnowledgeBase)
    requires ti < |texts|
    ensures AllHits(texts, m, kb)
            == AllHits(texts[..ti], m, kb) + Hits(Lower(texts[ti]), m, kb) + AllHits(texts[ti + 1..], m, kb)
  {
    assert texts == texts[..ti] + [texts[ti]] + texts[ti + 1..];
    AllHitsConcat(texts[..ti] + [texts[ti]], texts[ti + 1..], m, kb);
    AllHitsConcat(texts[..ti], [texts[ti]], m, kb);
    AllHitsOne(texts[ti], m, kb);
  }

  /**
   * The candidates seen after the first `ti` texts and the first `ki`
   * entries of the map for the next text are a prefix of the stream.
   */
  lemma StreamSplit(texts: seq<string>, m: seq<(string, string)>, kb: KnowledgeBase, maxChunks: int, ti: nat, ki: nat)
    returns (rest: seq<string>)
    requires ti < |texts| && ki <= |m|
    requires maxChunks < 1 ==> ti == 0
    ensures Stream(texts, m, kb, maxChunks) == AllHits(texts[..ti], m, kb) + Hits(Lower(texts[ti]), m[..ki], kb) + rest
  {
    var lower := Lower(texts[ti]);
    assert m == m[..ki] + m[ki..];
    HitsConcat(lower, m[..ki], m[ki..], kb);
    if maxChunks >= 1 {
      AllHitsAround(texts, ti, m, kb);
      var before, after := AllHits(texts[..ti], m, kb), AllHits(texts[ti + 1..], m, kb);
      var h1, h2 := Hits(lower, m[..ki], kb), Hits(lower, m[ki..], kb);
      rest := h2 + after;
      assert before + (h1 + h2) + after == before + h1 + rest;
    } else {
      assert texts[..ti] == [];
      rest := Hits(lower, m[ki..], kb);
    }
  }

  /** The candidates the loops see for a given `max_chunks`: with `max_chunks <= 0` the outer loop stops after the first text. */
  function Stream(texts: seq<string>, m: seq<(string, string)>, kb: KnowledgeBase, maxChunks: int): seq<string> {
    if maxChunks >= 1 then AllHits(texts, m, kb)
    else if texts == [] then []
    else Hits(Lower(texts[0]), m, kb)
  }

  /** How many chunks the loops keep at most: the first append already meets a limit of zero or less. */
  function Cap(maxChunks: int): nat {
    if maxChunks >= 1 then maxChunks else 1
  }

  /** The files the retriever returns chunks of, in order, for search texts `texts` and keyword map `m`. */
  function RetrievedFiles(texts: seq<string>, m: seq<(string, string)>, kb: KnowledgeBase, maxChunks: int): (r: seq<string>)
    ensures |r| <= Cap(maxChunks)
    ensures maxChunks >= 1 ==> |r| <= maxChunks
  {
    Take(AppendNew([], Stream(texts, m, kb, maxChunks)), Cap(maxChunks))
  }

  /** The search values before the first one that is not a string, as strings. */
  function StrPrefix(items: seq<Json>): (r: seq<string>)
    ensures |r| <= |items|
    ensures forall k :: 0 <= k < |r| ==> items[k] == Str(r[k])
    ensures |r| < |items| ==> !items[|r|].Str?
    ensures (forall k :: 0 <= k < |items| ==> items[k].Str?) ==> |r| == |items|
  {
    if items == [] || !items[0].Str? then []
    else
      var rest := StrPrefix(items[1..]);
      assert forall k :: 0 <= k < |rest| ==> items[k + 1] == items[1..][k];
      [items[0].s] + rest
  }

  /**
   * Whether the outer loop reaches a search value that is not a string,
   * whose `.lower()` raises `AttributeError`: it reaches the first such value
   * when that is the first value, or when `max_chunks` is positive and the
   * strings before it retrieved fewer than `max_chunks` files.
   */
  predicate ReachesNonString(items: seq<Json>, m: seq<(string, string)>, kb: KnowledgeBase, maxChunks: int) {
    var texts := StrPrefix(items);
    |texts| < |items| && (texts == [] || (maxChunks >= 1 && |RetrievedFiles(texts, m, kb, maxChunks)| < maxChunks))
  }

  /**
   * Whether `retrieve_relevant_knowledge(report, max_chunks)` raises: while
   * building `search_texts` (a `.get` on a value that is not a dict, an
   * item without `kpi`, `mistakes + missed_kpis` on a non-list), or in the loop.
   */
  predicate RetrievalRaises(report: Json, kb: KnowledgeBase, maxChunks: int) {
    !ReportReadable(report) || ReachesNonString(SearchItems(report), KeywordToFileMap, kb, maxChunks)
  }

  /** The chunks it returns otherwise: those of the strings before the first value that is not one. */
  function ReportChunks(report: Json, kb: KnowledgeBase, maxChunks: int): seq<string>
    requires ReportReadable(report)
  {
    ChunksOf(RetrievedFiles(StrPrefix(SearchItems(report)), KeywordToFileMap, kb, maxChunks), kb)
  }

  // ---------------------------------------------------------------------
  // The loops

  /**
   * `retrieve_relevant_knowledge(analysis_report, max_chunks)` with the
   * knowledge directory `kb`; `raised` says that it raised.
   */
  method RetrieveRelevantKnowledge(report: Json, kb: KnowledgeBase, maxChunks: int) returns (raised: bool, chunks: seq<string>)
    ensures raised == RetrievalRaises(report, kb, maxChunks)
    ensures !raised ==> chunks == ReportChunks(report, kb, maxChunks)
  {
    if !ReportReadable(report) {
      return true, [];
    }
    raised, chunks := ScanTexts(SearchItems(report), KeywordToFileMap, kb, maxChunks);
  }

  /** What the loops keep: the chunks of the retrieved files, and their names as a set. */
  ghost predicate Retrieved(chunks: seq<string>, names: set<string>, files: seq<string>, kb: KnowledgeBase) {
    chunks == ChunksOf(files, kb) && forall f :: f in names <==> f in files
  }

  /** Recording one more retrieved file keeps the loops' state in step. */
  lemma RetrievedSnoc(chunks: seq<string>, names: set<string>, files: seq<string>, f: string, kb: KnowledgeBase)
    requires Retrieved(chunks, names, files, kb)
    ensures Retrieved(chunks + [Chunk(f, Content(kb, f))], names + {f}, files + [f], kb)
  {
    ChunksOfSnoc(files, f, kb);
  }

  /**
   * The outer loop of `retrieve_relevant_knowledge`, over the search
   * values. `names` is `retrieved_filenames`; the ghost `files` lists the
   * same names in retrieval order, and `seen` the candidates met so far.
   */
  method ScanTexts(items: seq<Json>, m: seq<(string, string)>, kb: KnowledgeBase, maxChunks: int)
    returns (raised: bool, chunks: seq<string>)
    ensures raised == ReachesNonString(items, m, kb, maxChunks)
    ensures !raised ==> chunks == ChunksOf(RetrievedFiles(StrPrefix(items), m, kb, maxChunks), kb)
  {
    ghost var texts := StrPrefix(items);
    raised, chunks := false, [];
    var names: set<string> := {};
    ghost var files: seq<string> := [];
    ghost var seen: seq<string> := [];
    var ti := 0;
    while ti < |items|
      invariant 0 <= ti <= |texts|
      invariant maxChunks < 1 ==> ti == 0
      invariant Retrieved(chunks, names, files, kb)
      invariant seen == AllHits(texts[..ti], m, kb)
      invariant files == AppendNew([], seen)
      invariant files == [] || |files| < maxChunks
    {
      if !items[ti].Str? {
        assert texts[..ti] == texts;
        AllTextsScanned(texts, m, kb, maxChunks, seen, files);
        NonStringReached(items, m, kb, maxChunks, files);
        return true, chunks;
      }
      assert ti < |texts| && items[ti].s == texts[ti];
      ghost var line, count, stopped;
      chunks, names, files, line, count, stopped := ScanKeywords(Lower(items[ti].s), m, kb, maxChunks, chunks, names, files, seen);
      if |chunks| >= maxChunks {
        if stopped {
          StoppedFiles(texts, m, kb, maxChunks, ti, count, seen, line, files);
        } else {
          FirstTextExhausted(texts, m, kb, maxChunks, ti, count, seen, line, files);
        }
        CapReachedFirst(items, m, kb, maxChunks, ti);
        break;
      }
      assert m[..count] == m;
      AllHitsSnoc(texts, ti, m, kb);
      seen := seen + line;
      ti := ti + 1;
    }
    if ti == |items| {
      assert texts[..ti] == texts;
      AllTextsScanned(texts, m, kb, maxChunks, seen, files);
    }
  }

  /** Leaving through the `raise`: the strings before the first non-string retrieved fewer than `max_chunks` files. */
  lemma NonStringReached(items: seq<Json>, m: seq<(string, string)>, kb: KnowledgeBase, maxChunks: int, files: seq<string>)
    requires |StrPrefix(items)| < |items| && (maxChunks < 1 ==> StrPrefix(items) == [])
    requires files == RetrievedFiles(StrPrefix(items), m, kb, maxChunks) && (files == [] || |files| < maxChunks)
    ensures ReachesNonString(items, m, kb, maxChunks)
  {
  }

  /** Leaving through the outer `break` before the last string: the loop never reaches a non-string. */
  lemma CapReachedFirst(items: seq<Json>, m: seq<(string, string)>, kb: KnowledgeBase, maxChunks: int, ti: nat)
    requires ti < |StrPrefix(items)|
    requires maxChunks >= 1 ==> |RetrievedFiles(StrPrefix(items), m, kb, maxChunks)| >= maxChunks
    ensures !ReachesNonString(items, m, kb, maxChunks)
  {
  }

  /** Leaving through the `break` of the inner loop: the files are the capped prefix of the stream. */
  lemma StoppedFiles(texts: seq<string>, m: seq<(string, string)>, kb: KnowledgeBase, maxChunks: int,
                     ti: nat, count: nat, seen: seq<string>, line: seq<string>, files: seq<string>)
    requires ti < |texts| && count <= |m| && (maxChunks < 1 ==> ti == 0)
    requires seen == AllHits(texts[..ti], m, kb) && line == Hits(Lower(texts[ti]), m[..count], kb)
    requires files == AppendNew([], seen + line) && |files| == Cap(maxChunks)
    ensures files == RetrievedFiles(texts, m, kb, maxChunks)
  {
    var rest := StreamSplit(texts, m, kb, maxChunks, ti, count);
    CutOfPrefix(seen + line, rest, Cap(maxChunks));
  }

  /** With `max_chunks <= 0` and nothing retrieved from the first text, the outer `break` returns nothing. */
  lemma FirstTextExhausted(texts: seq<string>, m: seq<(string, string)>, kb: KnowledgeBase, maxChunks: int,
                           ti: nat, count: nat, seen: seq<string>, line: seq<string>, files: seq<string>)
    requires ti < |texts| && count == |m| && (maxChunks < 1 ==> ti == 0)
    requires seen == AllHits(texts[..ti], m, kb) && line == Hits(Lower(texts[ti]), m[..count], kb)
    requires files == AppendNew([], seen + line) && (files == [] || |files| < maxChunks) && |files| >= maxChunks
    ensures files == RetrievedFiles(texts, m, kb, maxChunks)
  {
    assert m[..count] == m;
    assert texts[..ti] == [];
  }

  /** Leaving the outer loop after the last text: the files are all first occurrences of the stream. */
  lemma AllTextsScanned(texts: seq<string>, m: seq<(string, string)>, kb: KnowledgeBase, maxChunks: int,
                        seen: seq<string>, files: seq<string>)
    requires maxChunks < 1 ==> texts == []
    requires seen == AllHits(texts, m, kb) && files == AppendNew([], seen) && (files == [] || |files| < maxChunks)
    ensures files == RetrievedFiles(texts, m, kb, maxChunks)
  {
  }

  /**
   * The inner loop, over the keyword map for one lower-cased text. The
   * ghost results say which candidates it met (`line`, from the first
   * `count` entries) and whether it left through the `break`.
   */
  method ScanKeywords(lower: string, m: seq<(string, string)>, kb: KnowledgeBase, maxChunks: int,
                      chunks0: seq<string>, names0: set<string>, ghost files0: seq<string>, ghost seen: seq<string>)
    returns (chunks: seq<string>, names: set<string>, ghost files: seq<string>, ghost line: seq<string>,
             ghost count: nat, ghost stopped: bool)
    requires Retrieved(chunks0, names0, files0, kb)
    requires files0 == AppendNew([], seen)
    requires files0 == [] || |files0| < maxChunks
    ensures Retrieved(chunks, names, files, kb)
    ensures count <= |m| && line == Hits(lower, m[..count], kb)
    ensures files == AppendNew([], seen + line)
    ensures stopped ==> |files| == Cap(maxChunks) && |chunks| >= maxChunks
    ensures !stopped ==> count == |m| && (files == [] || |files| < maxChunks)
  {
    chunks, names, files, line, count, stopped := chunks0, names0, files0, [], 0, false;
    assert seen + line == seen;
    var ki := 0;
    while ki < |m|
      invariant ki == count <= |m|
      invariant Retrieved(chunks, names, files, kb)
      invariant line == Hits(lower, m[..ki], kb)
      invariant files == AppendNew([], seen + line)
      invariant files == [] || |files| < maxChunks
      invariant !stopped
    {
      HitsSnoc(lower, m, ki, kb);
      var added;
      chunks, names, files, line, added := ConsiderEntry(lower, m[ki], kb, chunks, names, files, seen, line);
      count := ki + 1;
      if added && |chunks| >= maxChunks {
        stopped := true;
        break;
      }
      ki := ki + 1;
    }
  }

  /**
   * One step of the inner loop: when the keyword occurs and the file was
   * not retrieved yet, load it and, if it has content, append its chunk.
   */
  method ConsiderEntry(lower: string, entry: (string, string), kb: KnowledgeBase,
                       chunks0: seq<string>, names0: set<string>, ghost files0: seq<string>,
                       ghost seen: seq<string>, ghost line0: seq<string>)
    returns (chunks: seq<string>, names: set<string>, ghost files: seq<string>, ghost line: seq<string>, added: bool)
    requires Retrieved(chunks0, names0, files0, kb)
    requires files0 == AppendNew([], seen + line0)
    ensures Retrieved(chunks, names, files, kb)
    ensures line == line0 + (if IsHit(lower, entry, kb) then [entry.1] else [])
    ensures files == AppendNew([], seen + line)
    ensures added ==> |chunks| == |chunks0| + 1
    ensures !added ==> chunks == chunks0 && files == files0
  {
    var (keyword, filename) := entry;
    chunks, names, files, line, added := chunks0, names0, files0, line0, false;
    AppendNewSnoc([], seen + line0, filename);
    assert seen + (line0 + [filename]) == seen + line0 + [filename];
    if Contains(lower, keyword) && filename !in names {
      var content := LoadChunk(kb, filename);
      if content.Some? && content.value != "" {
        RetrievedSnoc(chunks, names, files, filename, kb);
        chunks := chunks + [Chunk(filename, content.value)];
        names := names + {filename};
        files := files + [filename];
        line := line + [filename];
        added := true;
      }
    } else if IsHit(lower, entry, kb) {
      line := line + [filename];
    }
  }
}

module RetrieverProperties {
  import opened Common
  import opened PyStr
  import opened Json
  import opened Report
  import opened Retriever

  /** The first-occurrence list holds exactly the elements fed to it. */
  lemma {:induction false} AppendNewMembers(acc: seq<string>, xs: seq<string>, x: string)
    ensures x in AppendNew(acc, xs) <==> x in acc || x in xs
    decreases |xs|
  {
    if xs != [] {
      var next := if xs[0] in acc then acc else acc + [xs[0]];
      AppendNewMembers(next, xs[1..], x);
      assert x in xs <==> x == xs[0] || x in xs[1..];
    }
  }

  /** No element enters the first-occurrence list twice. */
  lemma {:induction false} AppendNewDistinct(acc: seq<string>, xs: seq<string>)
    requires Distinct(acc)
    ensures Distinct(AppendNew(acc, xs))
    decreases |xs|
  {
    if xs != [] {
      var next := if xs[0] in acc then acc else acc + [xs[0]];
      assert Distinct(next);
      AppendNewDistinct(next, xs[1..]);
    }
  }

  /** The files one text selects are the loadable files of the entries whose keyword it contains. */
  lemma {:induction false} HitsMembers(lower: string, m: seq<(string, string)>, kb: KnowledgeBase, f: string)
    ensures f in Hits(lower, m, kb) <==> exists k :: 0 <= k < |m| && IsHit(lower, m[k], kb) && m[k].1 == f
  {
    if m != [] {
      var init := m[..|m| - 1];
      HitsMembers(lower, init, kb, f);
      assert forall k :: 0 <= k < |init| ==> init[k] == m[k];
      if exists k :: 0 <= k < |m| && IsHit(lower, m[k], kb) && m[k].1 == f {
        var k :| 0 <= k < |m| && IsHit(lower, m[k], kb) && m[k].1 == f;
        if k < |init| {
          assert IsHit(lower, init[k], kb) && init[k].1 == f;
        }
      }
    }
  }

  /** The files all texts select. */
  lemma {:induction false} AllHitsMembers(texts: seq<string>, m: seq<(string, string)>, kb: KnowledgeBase, f: string)
    ensures f in AllHits(texts, m, kb)
            <==> exists i, k :: 0 <= i < |texts| && 0 <= k < |m| && IsHit(Lower(texts[i]), m[k], kb) && m[k].1 == f
  {
    if texts != [] {
      var init := texts[..|texts| - 1];
      var last := texts[|texts| - 1];
      AllHitsMembers(init, m, kb, f);
      HitsMembers(Lower(last), m, kb, f);
      assert forall i :: 0 <= i < |init| ==> init[i] == texts[i];
      if exists i, k :: 0 <= i < |texts| && 0 <= k < |m| && IsHit(Lower(texts[i]), m[k], kb) && m[k].1 == f {
        var i, k :| 0 <= i < |texts| && 0 <= k < |m| && IsHit(Lower(texts[i]), m[k], kb) && m[k].1 == f;
        if i < |init| {
          assert IsHit(Lower(init[i]), m[k], kb);
        }
      }
    }
  }

  /** A file never comes back twice. */
  lemma RetrievedDistinct(texts: seq<string>, m: seq<(string, string)>, kb: KnowledgeBase, maxChunks: int)
    ensures Distinct(RetrievedFiles(texts, m, kb, maxChunks))
  {
    var all := AppendNew([], Stream(texts, m, kb, maxChunks));
    AppendNewDistinct([], Stream(texts, m, kb, maxChunks));
    assert RetrievedFiles(texts, m, kb, maxChunks) == all[..|RetrievedFiles(texts, m, kb, maxChunks)|];
  }

  /** Every retrieved file loads with content, and some search text contains a keyword mapped to it. */
  lemma RetrievedSound(texts: seq<string>, m: seq<(string, string)>, kb: KnowledgeBase, maxChunks: int, f: string)
    requires f in RetrievedFiles(texts, m, kb, maxChunks)
    ensures Loadable(kb, f)
    ensures exists i, k :: 0 <= i < |texts| && 0 <= k < |m| && Contains(Lower(texts[i]), m[k].0) && m[k].1 == f
  {
    var stream := Stream(texts, m, kb, maxChunks);
    var all := AppendNew([], stream);
    assert f in all;
    AppendNewMembers([], stream, f);
    if maxChunks >= 1 {
      AllHitsMembers(texts, m, kb, f);
    } else {
      HitsMembers(Lower(texts[0]), m, kb, f);
    }
  }

  /**
   * Below the limit nothing is missed: every loadable file whose keyword
   * occurs in a search text is retrieved.
   */
  lemma RetrievedComplete(texts: seq<string>, m: seq<(string, string)>, kb: KnowledgeBase, maxChunks: int, i: nat, k: nat)
    requires maxChunks >= 1 && |RetrievedFiles(texts, m, kb, maxChunks)| < maxChunks
    requires i < |texts| && k < |m| && Contains(Lower(texts[i]), m[k].0) && Loadable(kb, m[k].1)
    ensures m[k].1 in RetrievedFiles(texts, m, kb, maxChunks)
  {
    var stream := Stream(texts, m, kb, maxChunks);
    AllHitsMembers(texts, m, kb, m[k].1);
    AppendNewMembers([], stream, m[k].1);
  }

  /** A text with no upper-case ASCII letter is its own `lower()`. */
  predicate NoUpperCase(s: string) {
    forall i :: 0 <= i < |s| ==> !('A' <= s[i] <= 'Z')
  }

  /**
   * Every keyword of the map is already lower case, so comparing it with
   * the lower-cased search text can find it.
   */
  lemma KeywordsLowerCase()
    ensures forall i :: 0 <= i < |KeywordToFileMap| ==> Lower(KeywordToFileMap[i].0) == KeywordToFileMap[i].0
  {
    forall i | 0 <= i < |KeywordToFileMap| ensures Lower(KeywordToFileMap[i].0) == KeywordToFileMap[i].0 {
      var k := KeywordToFileMap[i].0;
      assert NoUpperCase(k);
      assert Lower(k) == k;
    }
  }

  /** The keyword `"empathy"` is mapped to `examples_empathy.txt`. */
  lemma EmpathyEntry()
    ensures KeywordToFileMap[6] == ("empathy", "examples_empathy.txt")
  {
  }

  /**
   * A search text mentioning empathy retrieves the empathy examples when
   * that is the only document there is.
   */
  lemma EmpathyExample(texts: seq<string>, i: nat, content: string, maxChunks: int)
    requires i < |texts| && Contains(Lower(texts[i]), "empathy")
    requires content != "" && maxChunks >= 1
    ensures RetrievedFiles(texts, KeywordToFileMap, map["examples_empathy.txt" := Some(content)], maxChunks)
            == ["examples_empathy.txt"]
  {
    var kb := map["examples_empathy.txt" := Some(content)];
    var r := RetrievedFiles(texts, KeywordToFileMap, kb, maxChunks);
    forall f | f in r ensures f == "examples_empathy.txt" {
      RetrievedSound(texts, KeywordToFileMap, kb, maxChunks, f);
    }
    RetrievedDistinct(texts, KeywordToFileMap, kb, maxChunks);
    if |r| == 0 {
      EmpathyEntry();
      RetrievedComplete(texts, KeywordToFileMap, kb, maxChunks, i, 6);
    }
    assert r[0] in r;
    if |r| >= 2 {
      FirstTwoDiffer(r);
      assert false;
    }
  }

  /** The first two elements of a list without repetitions differ. */
  lemma FirstTwoDiffer(r: seq<string>)
    requires Distinct(r) && |r| >= 2
    ensures r[0] != r[1] && r[0] in r && r[1] in r
  {
  }

  /** A report with neither `overall_assessment` nor `kpi_analysis` retrieves nothing and does not raise. */
  lemma EmptyReportRetrievesNothing(report: Json, kb: KnowledgeBase, maxChunks: int)
    requires report.Obj?
    requires Get(report.members, "overall_assessment").None? && Get(report.members, "kpi_analysis").None?
    ensures !RetrievalRaises(report, kb, maxChunks) && ReportChunks(report, kb, maxChunks) == []
  {
    assert SearchItems(report) == [];
  }

  /** When every search value is a string the retriever does not raise, and it searches them all. */
  lemma ShapedReportNeverRaises(report: Json, kb: KnowledgeBase, maxChunks: int)
    requires ReportShaped(report)
    ensures !RetrievalRaises(report, kb, maxChunks)
    ensures var texts := StrPrefix(SearchItems(report));
            |texts| == |SearchItems(report)| && forall k :: 0 <= k < |texts| ==> SearchItems(report)[k] == Str(texts[k])
  {
  }

  /** A value that is not a string in first place raises, whatever `max_chunks` is. */
  lemma NonStringFirstRaises(items: seq<Json>, m: seq<(string, string)>, kb: KnowledgeBase, maxChunks: int)
    requires items != [] && !items[0].Str?
    ensures ReachesNonString(items, m, kb, maxChunks)
  {
  }

  /** The strings before a value that is not a string are the strings of a prefix made only of strings. */
  lemma {:induction false} StrPrefixOfPrefix(items: seq<Json>, n: nat)
    requires n <= |items| && forall k :: 0 <= k < n ==> items[k].Str?
    ensures var p := StrPrefix(items[..n]);
            |p| == n && StrPrefix(items) == p + StrPrefix(items)[n..]
  {
    var p, q := StrPrefix(items[..n]), StrPrefix(items);
    assert forall k :: 0 <= k < n ==> items[..n][k] == items[k];
    assert forall k :: 0 <= k < n ==> Str(q[k]) == items[k] == Str(p[k]);
    assert q[..n] == p;
    assert q == q[..n] + q[n..];
  }

  /**
   * Once the strings up to value `n` retrieved `max_chunks` files, the loop
   * stops before any later value: a list or a number after them does not
   * raise, and the result is that of the first `n` values.
   */
  lemma ValuesPastTheCapIgnored(items: seq<Json>, n: nat, m: seq<(string, string)>, kb: KnowledgeBase, maxChunks: int)
    requires n <= |items| && forall k :: 0 <= k < n ==> items[k].Str?
    requires maxChunks >= 1 && |RetrievedFiles(StrPrefix(items[..n]), m, kb, maxChunks)| == maxChunks
    ensures !ReachesNonString(items, m, kb, maxChunks)
    ensures RetrievedFiles(StrPrefix(items), m, kb, maxChunks) == RetrievedFiles(StrPrefix(items[..n]), m, kb, maxChunks)
  {
    StrPrefixOfPrefix(items, n);
    var p := StrPrefix(items[..n]);
    var rest := StrPrefix(items)[n..];
    AllHitsConcat(p, rest, m, kb);
    CutOfPrefix(AllHits(p, m, kb), AllHits(rest, m, kb), maxChunks);
  }
}
