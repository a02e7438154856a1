/**
 * `generate_audio_from_script` of tts_generator.py: after checking the
 * configured API key and voice IDs, it walks the script line by line, sends
 * every labelled, non-empty utterance to the text-to-speech service with its
 * speaker's voice, streams the audio chunks it gets back into the output
 * file, and counts the lines that produced audio. The service is the
 * `convert` parameter; opening the output file is the `outputOpens` flag.
 */
module TtsGenerator {
  import opened Common
  import opened PyStr
  import opened SpeakerLines

  /** The prefix of a voice ID left at its placeholder value. */
  const Placeholder: string := "YOUR_"

  /**
   * The `config` attributes the function reads, as parameters; `None` is an
   * attribute whose value is unset.
   */
  datatype TtsConfig = TtsConfig(
    apiKey: Option<string>,
    agentVoiceId: Option<string>,
    patientVoiceId: Option<string>,
    agentLabel: string,
    patientLabel: string)

  /** `not voice_id or voice_id.startswith("YOUR_")` fails. */
  predicate VoiceConfigured(id: Option<string>) {
    TruthyText(id) && !StartsWith(id.value, Placeholder)
  }

  /** The three checks that run before anything else. */
  predicate ConfigOk(c: TtsConfig) {
    TruthyText(c.apiKey) && VoiceConfigured(c.agentVoiceId) && VoiceConfigured(c.patientVoiceId)
  }

  /** One `text_to_speech.convert` call: the voice and the text to speak. */
  datatype Request = Request(voiceId: string, text: string)

  /**
   * What iterating one call's audio stream gives: the chunks delivered, and
   * whether the call or the stream raised after them.
   */
  datatype Stream = Stream(chunks: seq<Bytes>, raised: bool)

  /** The outcome: the return value, the calls made, the chunks written, the segment count, and whether the output file is removed. */
  datatype TtsRun = TtsRun(ok: bool, requests: seq<Request>, written: seq<Bytes>, segments: nat, removesOutput: bool)

  /** The voice configured for a speaker. */
  function VoiceOf(c: TtsConfig, s: Speaker): string
    requires ConfigOk(c)
  {
    if s == Agent then c.agentVoiceId.value else c.patientVoiceId.value
  }

  /** `script_text.strip().split('\n')`. */
  function ScriptLines(script: string): seq<string> {
    Split(Strip(script), '\n')
  }

  /** The call one script line leads to, if any: a labelled line with a non-empty utterance. */
  function LineRequest(c: TtsConfig, line: string): (r: Option<Request>)
    requires ConfigOk(c)
    ensures r.Some? ==> r.value.text != [] && IsStripped(r.value.text)
    ensures r.Some? ==> r.value.voiceId == c.agentVoiceId.value || r.value.voiceId == c.patientVoiceId.value
  {
    match Classify(Strip(line), c.agentLabel + ":", c.patientLabel + ":")
    case None => None
    case Some(u) => if u.text == [] then None else Some(Request(VoiceOf(c, u.speaker), u.text))
  }

  /** The calls the lines lead to, in line order. */
  function Requests(c: TtsConfig, lines: seq<string>): seq<Request>
    requires ConfigOk(c)
  {
    FilterMap(l => LineRequest(c, l), lines)
  }

  /** `if chunk:`: the chunks that are written. */
  function NonEmptyChunks(chunks: seq<Bytes>): (r: seq<Bytes>)
    ensures forall k :: 0 <= k < |r| ==> r[k] != []
    decreases |chunks|
  {
    if chunks == [] then []
    else
      var last := chunks[|chunks| - 1];
      NonEmptyChunks(chunks[..|chunks| - 1]) + (if last != [] then [last] else [])
  }

  /** A call that completed and wrote at least one chunk: what `segment_count` counts. */
  predicate Produced(s: Stream) {
    !s.raised && NonEmptyChunks(s.chunks) != []
  }

  /** The chunks written for the calls, in call order. */
  function Written(reqs: seq<Request>, convert: Request -> Stream): seq<Bytes>
    decreases |reqs|
  {
    if reqs == [] then []
    else Written(reqs[..|reqs| - 1], convert) + NonEmptyChunks(convert(reqs[|reqs| - 1]).chunks)
  }

  /** The number of calls that produced audio. */
  function Segments(reqs: seq<Request>, convert: Request -> Stream): nat
    decreases |reqs|
  {
    if reqs == [] then 0
    else Segments(reqs[..|reqs| - 1], convert) + (if Produced(convert(reqs[|reqs| - 1])) then 1 else 0)
  }

  /**
   * `generate_audio_from_script(script_text, output_filename)`. A failed
   * configuration check or an output file that cannot be opened returns
   * `False` before any call; otherwise every utterance is sent, a failed
   * call skips its line, and the result is `True` exactly when some line
   * produced audio (the output file is removed otherwise).
   */
  method GenerateAudioFromScript(script: string, c: TtsConfig, outputOpens: bool, convert: Request -> Stream)
    returns (run: TtsRun)
    ensures !ConfigOk(c) || !outputOpens ==> run == TtsRun(false, [], [], 0, false)
    ensures ConfigOk(c) && outputOpens ==>
              && run.requests == Requests(c, ScriptLines(script))
              && run.written == Written(run.requests, convert)
              && run.segments == Segments(run.requests, convert)
              && run.ok == (run.segments > 0)
              && run.removesOutput == !run.ok
  {
    if !TruthyText(c.apiKey) {
      return TtsRun(false, [], [], 0, false);
    }
    if !TruthyText(c.agentVoiceId) || StartsWith(c.agentVoiceId.value, Placeholder) {
      return TtsRun(false, [], [], 0, false);
    }
    if !TruthyText(c.patientVoiceId) || StartsWith(c.patientVoiceId.value, Placeholder) {
      return TtsRun(false, [], [], 0, false);
    }
    if !outputOpens {
      return TtsRun(false, [], [], 0, false);
    }
    var requests, written, segmentCount := SpeakLines(c, ScriptLines(script), convert);
    var ok := segmentCount > 0;
    run := TtsRun(ok, requests, written, segmentCount, !ok);
  }

  /** The `for` loop over the script lines inside `with open(output_filename, "wb")`. */
  method SpeakLines(c: TtsConfig, lines: seq<string>, convert: Request -> Stream)
    returns (requests: seq<Request>, written: seq<Bytes>, segmentCount: nat)
    requires ConfigOk(c)
    ensures requests == Requests(c, lines)
    ensures written == Written(requests, convert)
    ensures segmentCount == Segments(requests, convert)
  {
    segmentCount := 0;
    requests := [];
    written := [];
    var i := 0;
    while i < |lines|
      invariant 0 <= i <= |lines|
      invariant requests == Requests(c, lines[..i])
      invariant written == Written(requests, convert)
      invariant segmentCount == Segments(requests, convert)
      decreases |lines| - i
    {
      ghost var r := LineRequest(c, lines[i]);
      TakeSnoc(lines, i);
      RequestsSnoc(c, lines[..i], lines[i]);
      var line := Strip(lines[i]);
      i := i + 1;
      if line == [] {
        continue;
      }
      var u := Classify(line, c.agentLabel + ":", c.patientLabel + ":");
      if u.None? || u.value.text == [] {
        continue;
      }
      var request := Request(VoiceOf(c, u.value.speaker), u.value.text);
      assert r == Some(request);
      var stream := convert(request);
      var chunks, chunkCount := WriteStream(stream.chunks);
      written := written + chunks;
      if !stream.raised && chunkCount > 0 {
        segmentCount := segmentCount + 1;
      }
      assert (requests + [request])[..|requests|] == requests;
      requests := requests + [request];
    }
    assert lines[..i] == lines;
  }

  /** `for chunk in audio_stream: if chunk: output_file.write(chunk)`: the chunks written and their count. */
  method WriteStream(stream: seq<Bytes>) returns (written: seq<Bytes>, chunkCount: nat)
    ensures written == NonEmptyChunks(stream) && chunkCount == |written|
  {
    written := [];
    chunkCount := 0;
    var j := 0;
    while j < |stream|
      invariant 0 <= j <= |stream|
      invariant written == NonEmptyChunks(stream[..j]) && chunkCount == |written|
      decreases |stream| - j
    {
      assert stream[..j + 1][..j] == stream[..j];
      if stream[j] != [] {
        written := written + [stream[j]];
        chunkCount := chunkCount + 1;
      }
      j := j + 1;
    }
    assert stream[..j] == stream;
  }

  // ---------------------------------------------------------------------
  // Properties

  /** At most one segment per call. */
  lemma {:induction false} SegmentsBounded(reqs: seq<Request>, convert: Request -> Stream)
    ensures Segments(reqs, convert) <= |reqs|
    decreases |reqs|
  {
    if reqs != [] {
      SegmentsBounded(reqs[..|reqs| - 1], convert);
    }
  }

  /** Some segment is counted exactly when some call produced audio. */
  lemma {:induction false} SegmentsPositive(reqs: seq<Request>, convert: Request -> Stream)
    ensures Segments(reqs, convert) > 0 <==> exists k :: 0 <= k < |reqs| && Produced(convert(reqs[k]))
    decreases |reqs|
  {
    if reqs != [] {
      var n := |reqs| - 1;
      var front := reqs[..n];
      SegmentsPositive(front, convert);
      if exists k :: 0 <= k < n && Produced(convert(front[k])) {
        var k :| 0 <= k < n && Produced(convert(front[k]));
        assert front[k] == reqs[k];
      }
      if exists k :: 0 <= k < |reqs| && Produced(convert(reqs[k])) {
        var k :| 0 <= k < |reqs| && Produced(convert(reqs[k]));
        if k < n {
          assert front[k] == reqs[k];
        }
      }
    }
  }

  /** Only non-empty chunks reach the file. */
  lemma {:induction false} WrittenNonEmpty(reqs: seq<Request>, convert: Request -> Stream)
    ensures forall k :: 0 <= k < |Written(reqs, convert)| ==> Written(reqs, convert)[k] != []
    decreases |reqs|
  {
    if reqs != [] {
      WrittenNonEmpty(reqs[..|reqs| - 1], convert);
    }
  }

  /** A further line adds its call, if any, at the end. */
  lemma RequestsSnoc(c: TtsConfig, lines: seq<string>, line: string)
    requires ConfigOk(c)
    ensures var r := LineRequest(c, line);
            Requests(c, lines + [line]) == Requests(c, lines) + (if r.Some? then [r.value] else [])
  {
    FilterMapSnoc(l => LineRequest(c, l), lines, line);
  }

  /** Each call comes from one line, and each line with a non-empty utterance leads to a call. */
  lemma RequestsFromLines(c: TtsConfig, lines: seq<string>)
    requires ConfigOk(c)
    ensures forall r :: r in Requests(c, lines) <==> exists k :: 0 <= k < |lines| && LineRequest(c, lines[k]) == Some(r)
  {
    forall r ensures r in Requests(c, lines) <==> exists k :: 0 <= k < |lines| && LineRequest(c, lines[k]) == Some(r) {
      FilterMapMembers(l => LineRequest(c, l), lines, r);
    }
  }

  /** Labels that one line of the script format can carry. */
  predicate UsableLabels(c: TtsConfig) {
    && DistinctLabels(c.agentLabel, c.patientLabel)
    && c.agentLabel != [] && c.patientLabel != []
    && !IsSpace(c.agentLabel[0]) && !IsSpace(c.patientLabel[0])
    && '\n' !in c.agentLabel && '\n' !in c.patientLabel
  }

  /** An utterance that fits on one script line. */
  predicate OneLine(u: Utterance) {
    u.text != [] && IsStripped(u.text) && '\n' !in u.text
  }

  /** The script line `LABEL: text` for an utterance. */
  function ScriptLine(c: TtsConfig, u: Utterance): string {
    (if u.speaker == Agent then c.agentLabel else c.patientLabel) + ": " + u.text
  }

  /** The lines of a script written from utterances, one per line. */
  function ScriptOf(c: TtsConfig, us: seq<Utterance>): (r: seq<string>)
    ensures |r| == |us| && forall k :: 0 <= k < |us| ==> r[k] == ScriptLine(c, us[k])
  {
    seq(|us|, k requires 0 <= k < |us| => ScriptLine(c, us[k]))
  }

  /** The calls for utterances: each text with its speaker's voice. */
  function Voiced(c: TtsConfig, us: seq<Utterance>): (r: seq<Request>)
    requires ConfigOk(c)
    ensures |r| == |us| && forall k :: 0 <= k < |us| ==> r[k] == Request(VoiceOf(c, us[k].speaker), us[k].text)
  {
    seq(|us|, k requires 0 <= k < |us| => Request(VoiceOf(c, us[k].speaker), us[k].text))
  }

  /** A line written from an utterance leads to the call for that utterance. */
  lemma LineRoundTrip(c: TtsConfig, u: Utterance)
    requires ConfigOk(c) && UsableLabels(c) && OneLine(u)
    ensures LineRequest(c, ScriptLine(c, u)) == Some(Request(VoiceOf(c, u.speaker), u.text))
  {
    ClassifyRoundTrip(c.agentLabel, c.patientLabel, u);
  }

  /** A written line has no newline of its own and is already stripped. */
  lemma ScriptLineShape(c: TtsConfig, u: Utterance)
    requires UsableLabels(c) && OneLine(u)
    ensures var l := ScriptLine(c, u); l != [] && '\n' !in l && IsStripped(l)
  {
    var name := if u.speaker == Agent then c.agentLabel else c.patientLabel;
    var l := ScriptLine(c, u);
    assert l == name + (": " + u.text);
    assert l[0] == name[0];
    assert l[|l| - 1] == u.text[|u.text| - 1];
    assert forall k :: 0 <= k < |l| ==> l[k] == (if k < |name| then name[k] else if k < |name| + 2 then ": "[k - |name|] else u.text[k - |name| - 2]);
  }

  /** Joining the written lines with newlines and splitting the script again gives the lines back. */
  lemma ScriptLinesOfScript(c: TtsConfig, us: seq<Utterance>)
    requires UsableLabels(c) && us != []
    requires forall k :: 0 <= k < |us| ==> OneLine(us[k])
    ensures ScriptLines(Join("\n", ScriptOf(c, us))) == ScriptOf(c, us)
  {
    var lines := ScriptOf(c, us);
    forall k | 0 <= k < |lines| ensures lines[k] != [] && '\n' !in lines[k] && IsStripped(lines[k]) {
      ScriptLineShape(c, us[k]);
    }
    JoinEnds("\n", lines);
    StripStripped(Join("\n", lines));
    SplitJoin(lines, '\n');
  }

  /**
   * A script written as `LABEL: text` lines, one per utterance and joined
   * by newlines, leads to one call per utterance, in order, each with its
   * speaker's voice.
   */
  lemma ScriptRoundTrip(c: TtsConfig, us: seq<Utterance>)
    requires ConfigOk(c) && UsableLabels(c) && us != []
    requires forall k :: 0 <= k < |us| ==> OneLine(us[k])
    ensures Requests(c, ScriptLines(Join("\n", ScriptOf(c, us)))) == Voiced(c, us)
  {
    var lines := ScriptOf(c, us);
    ScriptLinesOfScript(c, us);
    forall k | 0 <= k < |lines| ensures LineRequest(c, lines[k]) == Some(Voiced(c, us)[k]) {
      LineRoundTrip(c, us[k]);
    }
    FilterMapAll(l => LineRequest(c, l), lines);
  }
}
