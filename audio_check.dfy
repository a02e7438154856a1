/**
 * The script code/audio_check.py: it checks the configured API key and
 * voice IDs, reads the transcript, sends each `AGENT:` or `PATIENT:` line
 * to the text-to-speech service with that speaker's voice, stops the whole
 * run at the first failed call, and writes the concatenated audio of all
 * lines to the output file. The service is the `convert` parameter (`None`
 * is a call that raised); creating the client, reading the transcript and
 * writing the file are the `clientOk`, `transcript` and `writeOk`
 * parameters; `sys.exit(code)` is the run's exit code.
 */
module AudioCheck {
  import opened Common
  import opened PyStr
  import opened SpeakerLines

  const AgentPrefix: string := "AGENT:"
  const PatientPrefix: string := "PATIENT:"

  /** The configured values; `None` is an unset variable. */
  datatype VoiceConfig = VoiceConfig(apiKey: Option<string>, agentId: Option<string>, patientId: Option<string>)

  /** The three checks the script makes before anything else. */
  predicate ConfigOk(c: VoiceConfig) {
    TruthyText(c.apiKey) && TruthyText(c.agentId) && TruthyText(c.patientId)
  }

  /** One `text_to_speech.convert` call: the voice and the text to speak. */
  datatype Request = Request(voiceId: string, text: string)

  /** How the script ends: its exit code, the calls it made, and the bytes of the file it wrote, if any. */
  datatype AudioRun = AudioRun(exitCode: int, requests: seq<Request>, output: Option<Bytes>)

  /** The text after a speaker's label: `line.replace(label, "", 1).strip()`. */
  function SpeakerText(line: string, prefix: string): string {
    Strip(ReplaceFirst(line, prefix, ""))
  }

  /** The call one transcript line leads to, if any. */
  function LineRequest(c: VoiceConfig, line: string): (r: Option<Request>)
    requires ConfigOk(c)
    ensures r.Some? ==> r.value.text != [] && IsStripped(r.value.text)
    ensures r.Some? ==> r.value.voiceId == c.agentId.value || r.value.voiceId == c.patientId.value
  {
    var l := Strip(line);
    if l == [] then None
    else if StartsWith(l, AgentPrefix) then
      var t := SpeakerText(l, AgentPrefix);
      if t == [] then None else Some(Request(c.agentId.value, t))
    else if StartsWith(l, PatientPrefix) then
      var t := SpeakerText(l, PatientPrefix);
      if t == [] then None else Some(Request(c.patientId.value, t))
    else None
  }

  /** The calls the transcript leads to, in line order, when none fails. */
  function Requests(c: VoiceConfig, lines: seq<string>): seq<Request>
    requires ConfigOk(c)
  {
    FilterMap(l => LineRequest(c, l), lines)
  }

  /** The index of the first call that raises, or the number of calls when none does. */
  function FirstFailure(reqs: seq<Request>, convert: Request -> Option<Bytes>): (k: nat)
    ensures k <= |reqs|
    ensures forall i :: 0 <= i < k ==> convert(reqs[i]).Some?
    ensures k < |reqs| ==> convert(reqs[k]).None?
    decreases |reqs|
  {
    if reqs == [] || convert(reqs[0]).None? then 0 else 1 + FirstFailure(reqs[1..], convert)
  }

  /** `b"".join(audio_stream)` for each call, in call order. */
  function Audio(reqs: seq<Request>, convert: Request -> Option<Bytes>): (r: seq<Bytes>)
    requires forall i :: 0 <= i < |reqs| ==> convert(reqs[i]).Some?
  {
    seq(|reqs|, i requires 0 <= i < |reqs| && convert(reqs[i]).Some? => convert(reqs[i]).value)
  }

  /** The bytes of a file written chunk by chunk. */
  function Concat(chunks: seq<Bytes>): Bytes
    decreases |chunks|
  {
    if chunks == [] then [] else Concat(chunks[..|chunks| - 1]) + chunks[|chunks| - 1]
  }

  /**
   * The script from its configuration checks to the file write: a failed
   * check, client or read exits with 1 before any call; the calls follow the
   * transcript until one fails, which exits with 1; no audio exits with 0
   * and writes nothing; otherwise the file holds every line's audio, in order.
   */
  method RunAudioCheck(c: VoiceConfig, clientOk: bool, transcript: Option<seq<string>>,
                       convert: Request -> Option<Bytes>, writeOk: bool)
    returns (run: AudioRun)
    ensures !ConfigOk(c) || !clientOk || transcript.None? ==> run == AudioRun(1, [], None)
    ensures ConfigOk(c) && clientOk && transcript.Some? ==>
              var reqs := Requests(c, transcript.value);
              var k := FirstFailure(reqs, convert);
              if k < |reqs| then run == AudioRun(1, reqs[..k + 1], None)
              else if reqs == [] then run == AudioRun(0, [], None)
              else if writeOk then run == AudioRun(0, reqs, Some(Concat(Audio(reqs, convert))))
              else run == AudioRun(1, reqs, None)
  {
    if !TruthyText(c.apiKey) || !TruthyText(c.agentId) || !TruthyText(c.patientId) {
      return AudioRun(1, [], None);
    }
    if !clientOk || transcript.None? {
      return AudioRun(1, [], None);
    }
    var requests, allAudioBytes, failed := SynthesizeLines(c, transcript.value, convert);
    if failed {
      return AudioRun(1, requests, None);
    }
    if allAudioBytes == [] {
      return AudioRun(0, requests, None);
    }
    if !writeOk {
      return AudioRun(1, requests, None);
    }
    var written := WriteAll(allAudioBytes);
    run := AudioRun(0, requests, Some(written));
  }

  /**
   * The loop over the transcript lines: the calls made, the audio of each,
   * and whether a call raised (`sys.exit(1)` inside the loop).
   */
  method SynthesizeLines(c: VoiceConfig, lines: seq<string>, convert: Request -> Option<Bytes>)
    returns (requests: seq<Request>, allAudioBytes: seq<Bytes>, failed: bool)
    requires ConfigOk(c)
    ensures var reqs := Requests(c, lines);
            var k := FirstFailure(reqs, convert);
            && failed == (k < |reqs|)
            && (failed ==> requests == reqs[..k + 1])
            && (!failed ==> requests == reqs && allAudioBytes == Audio(reqs, convert))
  {
    allAudioBytes := [];
    requests := [];
    var i := 0;
    while i < |lines|
      invariant 0 <= i <= |lines|
      invariant requests == Requests(c, lines[..i])
      invariant forall j :: 0 <= j < |requests| ==> convert(requests[j]).Some?
      invariant allAudioBytes == Audio(requests, convert)
      decreases |lines| - i
    {
      ghost var r := LineRequest(c, lines[i]);
      TakeSnoc(lines, i);
      RequestsSnoc(c, lines[..i], lines[i]);
      var line := Strip(lines[i]);
      i := i + 1;
      if line == [] {
        continue;
      }
      var speakerText := "";
      var voiceId := "";
      if StartsWith(line, AgentPrefix) {
        speakerText := SpeakerText(line, AgentPrefix);
        voiceId := c.agentId.value;
      } else if StartsWith(line, PatientPrefix) {
        speakerText := SpeakerText(line, PatientPrefix);
        voiceId := c.patientId.value;
      } else {
        continue;
      }
      if speakerText == [] {
        continue;
      }
      var request := Request(voiceId, speakerText);
      assert r == Some(request);
      var lineAudio := convert(request);
      if lineAudio.None? {
        FailureAfter(c, lines, i, requests, request, convert);
        return requests + [request], allAudioBytes, true;
      }
      AudioSnoc(requests, request, convert);
      allAudioBytes := allAudioBytes + [lineAudio.value];
      requests := requests + [request];
    }
    assert lines[..i] == lines;
    failed := false;
  }

  /** The audio of one more successful call is added at the end. */
  lemma AudioSnoc(reqs: seq<Request>, req: Request, convert: Request -> Option<Bytes>)
    requires forall j :: 0 <= j < |reqs| ==> convert(reqs[j]).Some?
    requires convert(req).Some?
    ensures forall j :: 0 <= j < |reqs + [req]| ==> convert((reqs + [req])[j]).Some?
    ensures Audio(reqs + [req], convert) == Audio(reqs, convert) + [convert(req).value]
  {
  }

  /**
   * When the calls of the first `i` lines end with one that raises, after
   * calls that all succeeded, that call is the transcript's first failure.
   */
  lemma FailureAfter(c: VoiceConfig, lines: seq<string>, i: nat, done: seq<Request>, req: Request,
                     convert: Request -> Option<Bytes>)
    requires ConfigOk(c) && i <= |lines|
    requires Requests(c, lines[..i]) == done + [req]
    requires forall j :: 0 <= j < |done| ==> convert(done[j]).Some?
    requires convert(req).None?
    ensures var reqs := Requests(c, lines);
            var k := FirstFailure(reqs, convert);
            k < |reqs| && reqs[..k + 1] == done + [req]
  {
    assert lines == lines[..i] + lines[i..];
    RequestsAppend(c, lines[..i], lines[i..]);
    FailureBeforeRest(done, req, Requests(c, lines[i..]), convert);
  }

  /** Calls that succeed, then one that raises: whatever follows, that one is the first failure. */
  lemma FailureBeforeRest(done: seq<Request>, req: Request, rest: seq<Request>, convert: Request -> Option<Bytes>)
    requires forall j :: 0 <= j < |done| ==> convert(done[j]).Some?
    requires convert(req).None?
    ensures var reqs := done + [req] + rest;
            FirstFailure(reqs, convert) == |done| && reqs[..|done| + 1] == done + [req]
  {
    var reqs := done + [req] + rest;
    assert forall j :: 0 <= j < |done| ==> reqs[j] == done[j];
    assert reqs[|done|] == req;
    FirstFailureAt(reqs, convert, |done|);
    assert reqs[..|done| + 1] == done + [req];
  }

  /** `for audio_chunk in all_audio_bytes: f.write(audio_chunk)`: the file's bytes. */
  method WriteAll(chunks: seq<Bytes>) returns (written: Bytes)
    ensures written == Concat(chunks)
  {
    written := [];
    var j := 0;
    while j < |chunks|
      invariant 0 <= j <= |chunks|
      invariant written == Concat(chunks[..j])
      decreases |chunks| - j
    {
      TakeSnoc(chunks, j);
      written := written + chunks[j];
      j := j + 1;
    }
    assert chunks[..j] == chunks;
  }

  /** A further line adds its call, if any, at the end. */
  lemma RequestsSnoc(c: VoiceConfig, lines: seq<string>, line: string)
    requires ConfigOk(c)
    ensures var r := LineRequest(c, line);
            Requests(c, lines + [line]) == Requests(c, lines) + (if r.Some? then [r.value] else [])
  {
    FilterMapSnoc(l => LineRequest(c, l), lines, line);
  }

  /** The calls of two stretches of transcript are the calls of each, in turn. */
  lemma RequestsAppend(c: VoiceConfig, a: seq<string>, b: seq<string>)
    requires ConfigOk(c)
    ensures Requests(c, a + b) == Requests(c, a) + Requests(c, b)
  {
    FilterMapAppend(l => LineRequest(c, l), a, b);
  }

  /** The first failure is the first index, from the front, whose call raises. */
  lemma FirstFailureAt(reqs: seq<Request>, convert: Request -> Option<Bytes>, k: nat)
    requires k < |reqs| && convert(reqs[k]).None?
    requires forall i :: 0 <= i < k ==> convert(reqs[i]).Some?
    ensures FirstFailure(reqs, convert) == k
  {
  }

  // ---------------------------------------------------------------------
  // Properties

  /** The voice the script uses for a speaker. */
  function VoiceOf(c: VoiceConfig, s: Speaker): string
    requires ConfigOk(c)
  {
    if s == Agent then c.agentId.value else c.patientId.value
  }

  /**
   * The per-line logic agrees with the shared classification: a call with
   * the speaker's voice for a labelled line with a non-empty utterance, and
   * no call otherwise.
   */
  lemma LineRequestAgrees(c: VoiceConfig, line: string)
    requires ConfigOk(c)
    ensures LineRequest(c, line) ==
              match Classify(Strip(line), AgentPrefix, PatientPrefix)
              case None => None
              case Some(u) => if u.text == [] then None else Some(Request(VoiceOf(c, u.speaker), u.text))
  {
    var l := Strip(line);
    if StartsWith(l, AgentPrefix) {
      ReplaceFirstPrefix(l, AgentPrefix);
    } else if StartsWith(l, PatientPrefix) {
      ReplaceFirstPrefix(l, PatientPrefix);
    }
  }

  /** The call an utterance should lead to. */
  function CallOf(c: VoiceConfig, u: Utterance): Request
    requires ConfigOk(c)
  {
    Request(VoiceOf(c, u.speaker), u.text)
  }

  /**
   * A transcript of dialogue lines leads to one call per line, in order,
   * each with its speaker's voice and its utterance.
   */
  lemma DialogueRequests(c: VoiceConfig, us: seq<Utterance>)
    requires ConfigOk(c)
    requires forall k :: 0 <= k < |us| ==> us[k].text != [] && IsStripped(us[k].text)
    ensures var lines := seq(|us|, k requires 0 <= k < |us| => DialogueLine(us[k]));
            Requests(c, lines) == seq(|us|, k requires 0 <= k < |us| => CallOf(c, us[k]))
  {
    var lines := seq(|us|, k requires 0 <= k < |us| => DialogueLine(us[k]));
    forall k | 0 <= k < |lines| ensures LineRequest(c, lines[k]) == Some(CallOf(c, us[k])) {
      DialogueLineRoundTrip(us[k]);
      LineRequestAgrees(c, lines[k]);
    }
    FilterMapAll(l => LineRequest(c, l), lines);
  }

  /** The file holds the audio of earlier calls before that of later ones. */
  lemma {:induction false} ConcatAppend(a: seq<Bytes>, b: seq<Bytes>)
    ensures Concat(a + b) == Concat(a) + Concat(b)
    decreases |b|
  {
    if b == [] {
      assert a + b == a;
    } else {
      var b' := b[..|b| - 1];
      assert (a + b)[..|a + b| - 1] == a + b';
      ConcatAppend(a, b');
    }
  }
}
