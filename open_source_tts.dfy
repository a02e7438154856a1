/**
 * The transcript preparation of code/openSourceTTS.py: every line of the
 * transcript file is stripped, a byte order mark is removed from the first
 * line, `AGENT:` and `PATIENT:` lines become `[S1] text` and `[S2] text`
 * parts, and the parts are joined with single spaces into the dialogue
 * model's input. Reading the file is left to the caller, who passes its
 * lines; the model itself is not part of this model.
 */
module OpenSourceTts {
  import opened Common
  import opened PyStr
  import opened SpeakerLines

  /** U+FEFF, the byte order mark a UTF-8 file saved on Windows may start with. */
  const Bom: char := '\U{FEFF}'

  const AgentPrefix: string := "AGENT:"
  const PatientPrefix: string := "PATIENT:"

  /** The dialogue model's speaker tags, with the blank that follows them. */
  const S1Mark: string := "[S1] "
  const S2Mark: string := "[S2] "

  /** The tag for a speaker. */
  function Mark(s: Speaker): string {
    if s == Agent then S1Mark else S2Mark
  }

  /** The line's content after stripping and, on the first line, dropping a byte order mark. */
  function Content(line: string, first: bool): string {
    var l := Strip(line);
    if first && l != [] && l[0] == Bom then l[1..] else l
  }

  /** The part a line labelled for speaker `s` with `prefix` contributes: its tag and the stripped remainder, if not empty. */
  function TaggedPart(s: Speaker, l: string, prefix: string): (r: Option<string>)
    ensures r.Some? ==> exists t :: r.value == Mark(s) + t && t != [] && IsStripped(t)
  {
    var t := Strip(ReplaceFirst(l, prefix, ""));
    if t != [] then Some(Mark(s) + t) else None
  }

  /** The part one line contributes, if any: a labelled line whose remainder is not empty. */
  function LinePart(line: string, first: bool): (r: Option<string>)
    ensures r.Some? ==> exists s, t :: r.value == Mark(s) + t && t != [] && IsStripped(t)
  {
    var l := Content(line, first);
    if l == [] then None
    else if StartsWith(l, AgentPrefix) then TaggedPart(Agent, l, AgentPrefix)
    else if StartsWith(l, PatientPrefix) then TaggedPart(Patient, l, PatientPrefix)
    else None
  }

  /** A line `**like this**`: a header, skipped without a message. */
  predicate IsHeader(l: string) {
    StartsWith(l, "**") && EndsWith(l, "**")
  }

  /** The line leads to the "not AGENT/PATIENT" message. */
  predicate LineNotice(line: string, first: bool) {
    var l := Content(line, first);
    l != [] && !StartsWith(l, AgentPrefix) && !StartsWith(l, PatientPrefix) && !IsHeader(l)
  }

  /** The part of the line numbered `p.0` (from 0, as `enumerate` counts). */
  function NumberedPart(p: (nat, string)): Option<string> {
    LinePart(p.1, p.0 == 0)
  }

  /** The one-based number of the line numbered `p.0`, when it is reported as skipped. */
  function NumberedNotice(p: (nat, string)): Option<nat> {
    if LineNotice(p.1, p.0 == 0) then Some(p.0 + 1) else None
  }

  /** `model_input_parts` for the file's lines. */
  function Parts(lines: seq<string>): seq<string> {
    FilterMap(NumberedPart, Enumerate(lines))
  }

  /** The numbers of the lines reported as skipped. */
  function Notices(lines: seq<string>): seq<nat> {
    FilterMap(NumberedNotice, Enumerate(lines))
  }

  /**
   * The loop over the transcript lines and the join after it: the parts in
   * line order, their count, the skipped-line messages, and the model input,
   * which is `None` (no generation) when there are no parts.
   */
  method PrepareModelInput(lines: seq<string>)
    returns (parts: seq<string>, segmentCount: nat, notices: seq<nat>, modelInput: Option<string>)
    ensures parts == Parts(lines) && notices == Notices(lines)
    ensures segmentCount == |parts|
    ensures modelInput == if parts == [] then None else Some(Join(" ", parts))
  {
    parts := [];
    segmentCount := 0;
    notices := [];
    var lineNum := 0;
    while lineNum < |lines|
      invariant 0 <= lineNum <= |lines|
      invariant parts == Parts(lines[..lineNum]) && notices == Notices(lines[..lineNum])
      invariant segmentCount == |parts|
      decreases |lines| - lineNum
    {
      TakeSnoc(lines, lineNum);
      PartsSnoc(lines[..lineNum], lines[lineNum]);
      var content := Strip(lines[lineNum]);
      lineNum := lineNum + 1;
      if content == [] {
        continue;
      }
      if lineNum - 1 == 0 && content[0] == Bom {
        content := content[1..];
        if content == [] {
          continue;
        }
      }
      if StartsWith(content, AgentPrefix) {
        var text := Strip(ReplaceFirst(content, AgentPrefix, ""));
        if text != [] {
          parts := parts + [S1Mark + text];
          segmentCount := segmentCount + 1;
        }
      } else if StartsWith(content, PatientPrefix) {
        var text := Strip(ReplaceFirst(content, PatientPrefix, ""));
        if text != [] {
          parts := parts + [S2Mark + text];
          segmentCount := segmentCount + 1;
        }
      } else if !IsHeader(content) {
        notices := notices + [lineNum];
      }
    }
    assert lines[..lineNum] == lines;
    if parts == [] {
      modelInput := None;
    } else {
      modelInput := Some(Join(" ", parts));
    }
  }

  /** A further line adds its part and its message, if any, at the end. */
  lemma PartsSnoc(lines: seq<string>, line: string)
    ensures var p := LinePart(line, |lines| == 0);
            Parts(lines + [line]) == Parts(lines) + (if p.Some? then [p.value] else [])
    ensures Notices(lines + [line]) == Notices(lines) + (if LineNotice(line, |lines| == 0) then [|lines| + 1] else [])
  {
    assert Enumerate(lines + [line]) == Enumerate(lines) + [(|lines|, line)];
    FilterMapSnoc(NumberedPart, Enumerate(lines), (|lines|, line));
    FilterMapSnoc(NumberedNotice, Enumerate(lines), (|lines|, line));
  }

  // ---------------------------------------------------------------------
  // Properties

  /**
   * The conversion agrees with the shared classification: a part is the
   * speaker's tag and the utterance, for a labelled line with a non-empty
   * utterance, and there is no part otherwise.
   */
  lemma LinePartAgrees(line: string)
    ensures LinePart(line, false) ==
              match Classify(Strip(line), AgentPrefix, PatientPrefix)
              case None => None
              case Some(u) => if u.text == [] then None else Some(Mark(u.speaker) + u.text)
  {
    var l := Strip(line);
    if StartsWith(l, AgentPrefix) {
      ReplaceFirstPrefix(l, AgentPrefix);
    } else if StartsWith(l, PatientPrefix) {
      ReplaceFirstPrefix(l, PatientPrefix);
    }
  }

  /** A byte order mark counts only on the first line: there it is dropped, on any later line the line is skipped. */
  lemma BomOnlyOnFirstLine(s: string)
    requires IsStripped(s)
    ensures LinePart([Bom] + s, true) == LinePart(s, false)
    ensures LinePart([Bom] + s, false) == None
    ensures s != [] ==> LineNotice([Bom] + s, false)
  {
    var b := [Bom] + s;
    assert b[0] == Bom && b[|b| - 1] == (if s == [] then Bom else s[|s| - 1]);
    StripStripped(b);
    StripStripped(s);
    assert b[1..] == s;
    assert !StartsWith(b, AgentPrefix) && !StartsWith(b, PatientPrefix) by {
      assert b[..1] != AgentPrefix[..1] && b[..1] != PatientPrefix[..1];
    }
    if s != [] {
      assert !IsHeader(b) by {
        assert b[..1] != "**"[..1];
      }
    }
  }

  /** Without a byte order mark, the first line is read like every other line. */
  lemma FirstLineWithoutBom(line: string)
    requires Strip(line) == [] || Strip(line)[0] != Bom
    ensures LinePart(line, true) == LinePart(line, false)
    ensures LineNotice(line, true) == LineNotice(line, false)
  {
  }

  /** A `**header**` line gives no part and no message. */
  lemma HeaderLineSilent(line: string, first: bool)
    requires IsHeader(Content(line, first))
    ensures LinePart(line, first) == None && !LineNotice(line, first)
  {
    var l := Content(line, first);
    assert l[..1] == "**"[..1];
    assert !StartsWith(l, AgentPrefix) by { assert AgentPrefix[..1] != "**"[..1]; }
    assert !StartsWith(l, PatientPrefix) by { assert PatientPrefix[..1] != "**"[..1]; }
  }

  /** The part an utterance should become. */
  function PartOf(u: Utterance): string {
    Mark(u.speaker) + u.text
  }

  /** Each dialogue line becomes its utterance's part. */
  lemma DialogueLinePart(u: Utterance, first: bool)
    requires u.text != [] && IsStripped(u.text)
    ensures LinePart(DialogueLine(u), first) == Some(PartOf(u))
  {
    DialogueLineRoundTrip(u);
    var l := DialogueLine(u);
    assert Strip(l) == l;
    assert l[0] != Bom;
    FirstLineWithoutBom(l);
    LinePartAgrees(l);
  }

  /**
   * A transcript of dialogue lines becomes one part per line, in order: an
   * `AGENT:` line an `[S1]` part and a `PATIENT:` line an `[S2]` part.
   */
  lemma DialogueParts(us: seq<Utterance>)
    requires forall k :: 0 <= k < |us| ==> us[k].text != [] && IsStripped(us[k].text)
    ensures var lines := seq(|us|, k requires 0 <= k < |us| => DialogueLine(us[k]));
            Parts(lines) == seq(|us|, k requires 0 <= k < |us| => PartOf(us[k]))
  {
    var lines := seq(|us|, k requires 0 <= k < |us| => DialogueLine(us[k]));
    var e := Enumerate(lines);
    forall k | 0 <= k < |e| ensures NumberedPart(e[k]) == Some(PartOf(us[k])) {
      DialogueLinePart(us[k], k == 0);
    }
    FilterMapAll(NumberedPart, e);
  }

  /** The model input begins with the first part and contains every part. */
  lemma ModelInputHoldsParts(parts: seq<string>, k: nat)
    requires k < |parts|
    ensures StartsWith(Join(" ", parts), parts[0])
    ensures Contains(Join(" ", parts), parts[k])
  {
    JoinStartsWithFirst(" ", parts);
    JoinContainsPart(" ", parts, k);
  }
}
