/** The production path of `POST /api/record`: the request checks in their
    order, the clean-up of the text fields, the transcription, the length
    gate, and on success the new session file name and the stored record.
    The base64 decoder and the speech-to-text service are parameters; a
    `Failure` from either stands for the exception it raises. */
module Submission {
  import opened Base
  import opened SessionStore
  import FeedbackPrompt

  /** The JSON object of the request. A field the client left out is
      `None`. A falsy JSON value (null, an empty object, an empty list) is a
      `None` body. */
  datatype RecordBody = RecordBody(
    topic: Option<string>,
    speechType: Option<string>,
    language: Option<string>,
    audioData: Option<string>)

  /** An error response: the HTTP status and the `error` text. */
  datatype RecordError = RecordError(status: nat, message: string)

  /** What survives the checks: the cleaned fields, the decoded audio and
      its transcription. */
  datatype Admitted = Admitted(
    topic: string,
    speechType: string,
    language: string,
    audio: seq<byte>,
    transcription: string)

  datatype ScoreType = Short | Full

  /** The `result` object of a successful response (without the rounded
      duration). */
  datatype Submitted = Submitted(
    filename: string,
    transcription: string,
    topic: string,
    speechType: string,
    audioSize: nat,
    scoreType: ScoreType,
    streamUrl: string)

  /** The language codes the production path accepts; any other becomes "en". */
  const ValidLanguages: seq<string> :=
    ["en", "es", "fr", "de", "it", "pt", "ru", "ja", "ko", "zh", "ar", "hi", "tr", "nl", "bn"]

  /** The two audio-length thresholds, in bytes: 5 s and 30 s of 16-bit mono
      44.1 kHz audio. */
  const MinBytes: nat := 441000
  const ShortBytes: nat := 2646000

  /** s[:n]. */
  function Prefix(s: string, n: nat): (r: string)
    ensures |r| <= n && |r| <= |s| && r == s[..|r|]
    ensures |s| <= n ==> r == s
  {
    if |s| > n then s[..n] else s
  }

  function StrippedTopic(b: RecordBody): string {
    Strip(b.topic.GetOr(""))
  }

  function StrippedSpeechType(b: RecordBody): string {
    Strip(b.speechType.GetOr(""))
  }

  /** `not topic or not speech_type or not audio_data` after stripping. */
  predicate MissingFields(b: RecordBody) {
    StrippedTopic(b) == "" || StrippedSpeechType(b) == "" || b.audioData.GetOr("") == ""
  }

  /** The requested language, with "en" for a missing or unsupported code. */
  function RequestLanguage(b: RecordBody): (lang: string)
    ensures lang in ValidLanguages
    ensures b.language.Some? && b.language.value in ValidLanguages ==> lang == b.language.value
    ensures b.language.None? || b.language.value !in ValidLanguages ==> lang == "en"
  {
    var lang := b.language.GetOr("en");
    if lang in ValidLanguages then lang else "en"
  }

  /** The code handed to the speech-to-text service: "zh" is sent as "zh-CN". */
  function WhisperLanguage(lang: string): (w: string)
    ensures lang == "zh" ==> w == "zh-CN"
    ensures lang != "zh" ==> w == lang
  {
    if lang == "zh" then "zh-CN" else lang
  }

  /** The first three checks: a session id, a body, and the required fields
      non-blank after stripping. */
  function Intake(sid: string, body: Option<RecordBody>): (r: Result<RecordBody, RecordError>)
    ensures sid == "" ==> r == Failure(RecordError(400, "No session ID provided"))
    ensures sid != "" && body.None? ==> r == Failure(RecordError(400, "No data provided"))
    ensures sid != "" && body.Some? && MissingFields(body.value) ==>
              r == Failure(RecordError(400, "Missing required fields: topic, speech_type, or audio_data"))
    ensures r.Success? <==> sid != "" && body.Some? && !MissingFields(body.value)
    ensures r.Success? ==> r.value == body.value && r.value.audioData.Some?
  {
    if sid == "" then Failure(RecordError(400, "No session ID provided"))
    else if body.None? then Failure(RecordError(400, "No data provided"))
    else if MissingFields(body.value) then
      Failure(RecordError(400, "Missing required fields: topic, speech_type, or audio_data"))
    else Success(body.value)
  }

  /** The checks after the fields are present: clean the text fields,
      decode, transcribe, and gate on the transcription and the length. */
  function Screen(b: RecordBody, decode: string -> Result<seq<byte>, string>,
                  transcribe: (seq<byte>, string) -> Result<string, string>)
    : (r: Result<Admitted, RecordError>)
    requires b.audioData.Some?
    ensures decode(b.audioData.value).Failure? ==>
              r == Failure(RecordError(400, "Invalid audio data: " + decode(b.audioData.value).error))
    ensures decode(b.audioData.value).Success? ==>
              var audio := decode(b.audioData.value).value;
              var heard := transcribe(audio, WhisperLanguage(RequestLanguage(b)));
              && (heard.Failure? ==> r == Failure(RecordError(500, heard.error)))
              && (heard.Success? && |Strip(heard.value)| < 3 ==>
                    r == Failure(RecordError(400, "Could not transcribe audio")))
              && (heard.Success? && |Strip(heard.value)| >= 3 && FeedbackPrompt.Duration(|audio|) <= 5.0 ==>
                    r == Failure(RecordError(400, "Speech was too short to generate feedback for (<5 seconds). Please try again.")))
    ensures r.Success? ==>
              && decode(b.audioData.value) == Success(r.value.audio)
              && transcribe(r.value.audio, WhisperLanguage(r.value.language)) == Success(r.value.transcription)
              && r.value.topic == Prefix(RemoveSymbols(StrippedTopic(b)), 100)
              && r.value.speechType == Prefix(RemoveSymbols(StrippedSpeechType(b)), 50)
              && r.value.language == RequestLanguage(b)
    ensures r.Success? ==> |Strip(r.value.transcription)| >= 3
    ensures r.Success? ==> FeedbackPrompt.Duration(|r.value.audio|) > 5.0
    ensures r.Failure? ==> r.error.status in {400, 500}
  {
    var topic := Prefix(RemoveSymbols(StrippedTopic(b)), 100);
    var speechType := Prefix(RemoveSymbols(StrippedSpeechType(b)), 50);
    var lang := RequestLanguage(b);
    match decode(b.audioData.value)
    case Failure(e) => Failure(RecordError(400, "Invalid audio data: " + e))
    case Success(audio) =>
      match transcribe(audio, WhisperLanguage(lang))
      case Failure(e) => Failure(RecordError(500, e))
      case Success(text) =>
        if text == "" || |Strip(text)| < 3 then Failure(RecordError(400, "Could not transcribe audio"))
        else if |audio| <= MinBytes then
          FeedbackPrompt.DurationCompare(|audio|, 5);
          Failure(RecordError(400, "Speech was too short to generate feedback for (<5 seconds). Please try again."))
        else
          FeedbackPrompt.DurationCompare(|audio|, 5);
          Success(Admitted(topic, speechType, lang, audio, text))
  }

  /** Every check of the request, in the order the handler makes them. */
  function Admit(sid: string, body: Option<RecordBody>,
                 decode: string -> Result<seq<byte>, string>,
                 transcribe: (seq<byte>, string) -> Result<string, string>)
    : (r: Result<Admitted, RecordError>)
    ensures Intake(sid, body).Failure? ==> r == Failure(Intake(sid, body).error)
    ensures r.Success? ==> sid != "" && body.Some? && !MissingFields(body.value)
    ensures r.Failure? ==> r.error.status in {400, 500}
  {
    match Intake(sid, body)
    case Failure(e) => Failure(e)
    case Success(b) => Screen(b, decode, transcribe)
  }

  /** Audio of at most five seconds is turned away even with a good
      transcription; anything longer with a good transcription is admitted. */
  lemma LengthGate(sid: string, b: RecordBody,
                   decode: string -> Result<seq<byte>, string>,
                   transcribe: (seq<byte>, string) -> Result<string, string>)
    requires sid != "" && !MissingFields(b) && decode(b.audioData.value).Success?
    requires transcribe(decode(b.audioData.value).value, WhisperLanguage(RequestLanguage(b))).Success?
    requires |Strip(transcribe(decode(b.audioData.value).value, WhisperLanguage(RequestLanguage(b))).value)| >= 3
    ensures Admit(sid, Some(b), decode, transcribe).Success? <==>
              FeedbackPrompt.Duration(|decode(b.audioData.value).value|) > 5.0
  {
    assert Intake(sid, Some(b)) == Success(b);
    FeedbackPrompt.DurationCompare(|decode(b.audioData.value).value|, 5);
  }

  /** re.sub(r'[^\w\s-]', '', t)[:n]: only word characters, whitespace and
      hyphens, at most n of them, and `t` itself when it already qualifies. */
  lemma CleanedFieldShape(t: string, n: nat)
    ensures |Prefix(RemoveSymbols(t), n)| <= n
    ensures forall i :: 0 <= i < |Prefix(RemoveSymbols(t), n)| ==> IsNameChar(Prefix(RemoveSymbols(t), n)[i])
    ensures (|t| <= n && forall i :: 0 <= i < |t| ==> IsNameChar(t[i])) ==> Prefix(RemoveSymbols(t), n) == t
  {
    KeepAccepted(t, IsNameChar);
    if |t| <= n && forall i :: 0 <= i < |t| ==> IsNameChar(t[i]) {
      KeepIdentity(t, IsNameChar);
    }
  }

  /** The topic that reaches the store holds only word characters, white
      space and hyphens, is at most 100 characters, and is the stripped topic
      itself when that already qualifies; the speech type likewise with 50. */
  lemma AdmittedTopicShape(sid: string, body: Option<RecordBody>,
                           decode: string -> Result<seq<byte>, string>,
                           transcribe: (seq<byte>, string) -> Result<string, string>)
    requires Admit(sid, body, decode, transcribe).Success?
    ensures var a := Admit(sid, body, decode, transcribe).value;
            && |a.topic| <= 100 && |a.speechType| <= 50
            && (forall i :: 0 <= i < |a.topic| ==> IsNameChar(a.topic[i]))
            && (forall i :: 0 <= i < |a.speechType| ==> IsNameChar(a.speechType[i]))
    ensures var t := StrippedTopic(body.value);
            (|t| <= 100 && forall i :: 0 <= i < |t| ==> IsNameChar(t[i])) ==>
              Admit(sid, body, decode, transcribe).value.topic == t
    ensures var t := StrippedSpeechType(body.value);
            (|t| <= 50 && forall i :: 0 <= i < |t| ==> IsNameChar(t[i])) ==>
              Admit(sid, body, decode, transcribe).value.speechType == t
  {
    var b := body.value;
    var a := Admit(sid, body, decode, transcribe).value;
    assert a == Screen(b, decode, transcribe).value;
    CleanedFieldShape(StrippedTopic(b), 100);
    CleanedFieldShape(StrippedSpeechType(b), 50);
  }

  /** The success response for an admitted submission stored as `name`:
      the score type is short exactly when the audio is under 30 seconds. */
  function Response(sid: string, a: Admitted, name: string): (s: Submitted)
    ensures s.scoreType == Short <==> FeedbackPrompt.Duration(|a.audio|) < 30.0
    ensures s.filename == name && s.audioSize == |a.audio|
    ensures s.streamUrl == "/api/stream-feedback/" + sid + "/" + name
  {
    FeedbackPrompt.DurationCompare(|a.audio|, 30);
    Submitted(name, a.transcription, a.topic, a.speechType, |a.audio|,
              if |a.audio| < ShortBytes then Short else Full,
              "/api/stream-feedback/" + sid + "/" + name)
  }

  /** The tail of `process_recording` once every check has passed: mint the
      name, append the record with empty feedback, answer. For a session the
      store did not know, saving creates it with a zero counter, so the
      counter the next submission uses is 1 again. */
  method StoreSubmission(store: Store, sid: string, a: Admitted, timestamp: string, now: real)
    returns (s: Submitted)
    requires store.Valid() && sid != ""
    modifies store
    ensures store.Valid()
    ensures var name := SessionFilename(a.topic, timestamp, old(store.Counter(sid)) + 1);
            && s == Response(sid, a, name)
            && store.sessions == old(store.sessions)[sid := old(store.RecordsOf(sid)) +
                 [Recording(name, a.audio, a.topic, a.speechType, a.transcription, "", |a.audio|, now, now)]]
    ensures store.counters ==
              if sid in old(store.sessions) then old(store.counters)[sid := old(store.Counter(sid)) + 1]
              else old(store.counters)[sid := 0]
  {
    var name := store.GenerateSessionFilename(sid, a.topic, timestamp);
    var filename := name.value;
    var _ := store.SaveSessionRecording(sid, filename, a.audio, a.topic, a.speechType, a.transcription, "", now);
    s := Response(sid, a, filename);
  }

  /** In a session the store already holds, two stored submissions get
      different names, whatever their topics and timestamps. */
  method NamesDifferInKnownSession(store: Store, sid: string, a1: Admitted, a2: Admitted,
                                   ts1: string, ts2: string, now1: real, now2: real)
    returns (s1: Submitted, s2: Submitted)
    requires store.Valid() && sid != "" && sid in store.sessions
    modifies store
    ensures s1.filename != s2.filename
  {
    ghost var n := store.Counter(sid);
    s1 := StoreSubmission(store, sid, a1, ts1, now1);
    assert store.Counter(sid) == n + 1;
    s2 := StoreSubmission(store, sid, a2, ts2, now2);
    SessionFilenamesDiffer(a1.topic, ts1, n + 1, a2.topic, ts2, n + 2);
  }

  /** The first two submissions of a session the store did not know both
      use counter value 1: minting raises the counter to 1, saving then
      creates the session with a zero counter. With the same topic and
      timestamp second they get the same name. */
  method NewSessionRepeatsCounter(sid: string, a: Admitted, timestamp: string, now1: real, now2: real)
    returns (first: Submitted, second: Submitted)
    requires sid != ""
    ensures first.filename == second.filename == SessionFilename(a.topic, timestamp, 1)
  {
    var store := new Store();
    first := StoreSubmission(store, sid, a, timestamp, now1);
    second := StoreSubmission(store, sid, a, timestamp, now2);
  }

  /** `process_recording` in production mode: a rejection stores nothing;
      an admitted submission is stored as above. */
  method ProcessRecording(store: Store, sid: string, body: Option<RecordBody>,
                          decode: string -> Result<seq<byte>, string>,
                          transcribe: (seq<byte>, string) -> Result<string, string>,
                          timestamp: string, now: real)
    returns (r: Result<Submitted, RecordError>)
    requires store.Valid()
    modifies store
    ensures store.Valid()
    ensures Admit(sid, body, decode, transcribe).Failure? ==>
              && r == Failure(Admit(sid, body, decode, transcribe).error)
              && store.sessions == old(store.sessions) && store.counters == old(store.counters)
    ensures Admit(sid, body, decode, transcribe).Success? ==>
              var a := Admit(sid, body, decode, transcribe).value;
              var name := SessionFilename(a.topic, timestamp, old(store.Counter(sid)) + 1);
              && r == Success(Response(sid, a, name))
              && store.sessions == old(store.sessions)[sid := old(store.RecordsOf(sid)) +
                   [Recording(name, a.audio, a.topic, a.speechType, a.transcription, "", |a.audio|, now, now)]]
    ensures Admit(sid, body, decode, transcribe).Success? ==>
              store.counters ==
                if sid in old(store.sessions) then old(store.counters)[sid := old(store.Counter(sid)) + 1]
                else old(store.counters)[sid := 0]
  {
    var admitted := Admit(sid, body, decode, transcribe);
    if admitted.Failure? {
      return Failure(admitted.error);
    }
    var s := StoreSubmission(store, sid, admitted.value, timestamp, now);
    r := Success(s);
  }
}
