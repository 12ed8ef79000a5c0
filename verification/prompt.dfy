/** `build_feedback_prompt`: a pure choice between the short and the full
    coaching template by the estimated duration, plus the answer-language
    instruction. A prompt is kept as the template it uses and the values the
    template inserts, not as the literal text. Durations are estimated from
    the audio size as 16-bit mono samples at 44100 Hz, so one second is
    88200 bytes. */
module FeedbackPrompt {
  import opened Base

  const BytesPerSecond: nat := 88200

  /** The estimated duration in seconds, as the exact quotient. */
  function Duration(audioBytes: nat): real {
    audioBytes as real / BytesPerSecond as real
  }

  /** Comparing the duration with a whole number of seconds is comparing the
      size with that many seconds' worth of bytes. */
  lemma DurationCompare(audioBytes: nat, seconds: nat)
    ensures Duration(audioBytes) > seconds as real <==> audioBytes > seconds * BytesPerSecond
    ensures Duration(audioBytes) < seconds as real <==> audioBytes < seconds * BytesPerSecond
  {
    assert Duration(audioBytes) * BytesPerSecond as real == audioBytes as real;
  }

  /** The prompt builder's own language table (`zh` is "Chinese" here). */
  const LanguageNames: map<string, string> := map[
    "en" := "English", "es" := "Spanish", "fr" := "French", "de" := "German",
    "it" := "Italian", "pt" := "Portuguese", "ru" := "Russian", "ja" := "Japanese",
    "ko" := "Korean", "zh" := "Chinese", "ar" := "Arabic", "hi" := "Hindi",
    "tr" := "Turkish", "nl" := "Dutch", "bn" := "Bengali"]

  /** language_names.get(language, 'English'). */
  function LanguageName(code: string): (name: string)
    ensures code in LanguageNames ==> name == LanguageNames[code]
    ensures code !in LanguageNames ==> name == "English"
  {
    if code in LanguageNames then LanguageNames[code] else "English"
  }

  /** The closing sentence both templates end with. */
  function LanguageInstruction(languageName: string): string {
    "Try to tailor the feedback based off the context of the user presentation. "
    + "Make sure to provide ALL feedback in " + languageName + "."
  }

  /** The two templates and what each inserts. `seconds` is int(duration);
      `practiceTarget` is int(duration * 0.9), the time the full template
      asks the speaker to beat next time. */
  datatype Prompt =
    | ShortPrompt(speechType: string, topic: string, transcription: string, repeatContext: string,
                  seconds: nat, languageInstruction: string)
    | FullPrompt(speechType: string, topic: string, transcription: string, repeatContext: string,
                 seconds: nat, practiceTarget: nat, languageInstruction: string)

  /** `build_feedback_prompt`. `isRepeat` and `previousTranscription` are
      accepted and never used: the repeat context is always empty. */
  function BuildFeedbackPrompt(topic: string, speechType: string, transcription: string, audioBytes: nat,
                               language: string, isRepeat: bool, previousTranscription: Option<string>)
    : (p: Prompt)
    ensures p.ShortPrompt? <==> 5.0 < Duration(audioBytes) < 20.0
    ensures p.seconds as real <= Duration(audioBytes) < p.seconds as real + 1.0
    ensures p.FullPrompt? ==>
              p.practiceTarget as real <= Duration(audioBytes) * 0.9 < p.practiceTarget as real + 1.0
    ensures p.languageInstruction == LanguageInstruction(LanguageName(language))
    ensures p.topic == topic && p.speechType == speechType && p.transcription == transcription
    ensures p.repeatContext == ""
  {
    var seconds := audioBytes / BytesPerSecond;
    var instruction := LanguageInstruction(LanguageName(language));
    if 441000 < audioBytes < 1764000 then
      ShortPrompt(speechType, topic, transcription, "", seconds, instruction)
    else
      FullPrompt(speechType, topic, transcription, "", seconds, (audioBytes * 9) / 882000, instruction)
  }

  /** Both templates close with the same sentence, which names the language
      from the table, or English for a code the table does not know. */
  lemma SameLanguageInstruction(topic: string, speechType: string, transcription: string, bytes1: nat,
                                bytes2: nat, language: string)
    ensures BuildFeedbackPrompt(topic, speechType, transcription, bytes1, language, false, None).languageInstruction
         == BuildFeedbackPrompt(topic, speechType, transcription, bytes2, language, false, None).languageInstruction
    ensures language !in LanguageNames ==>
              BuildFeedbackPrompt(topic, speechType, transcription, bytes1, language, false, None).languageInstruction
              == LanguageInstruction("English")
  {
  }

  /** The repeat flag and the previous transcription never change the prompt. */
  lemma RepeatIgnored(topic: string, speechType: string, transcription: string, audioBytes: nat,
                      language: string, r1: bool, p1: Option<string>, r2: bool, p2: Option<string>)
    ensures BuildFeedbackPrompt(topic, speechType, transcription, audioBytes, language, r1, p1)
         == BuildFeedbackPrompt(topic, speechType, transcription, audioBytes, language, r2, p2)
  {
  }
}
