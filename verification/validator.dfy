/** The static input checks of the `Validator` class: each either accepts
    (returning True or the sanitised text) or raises `ValidationError` with a
    message; the raise is a `Failure` here. */
module Validator {
  import opened Base

  datatype ValidationError = ValidationError(message: string)

  /** The supported language table of the configuration (code to display name). */
  const Languages: map<string, string> := map[
    "en" := "English", "ko" := "Korean", "zh-CN" := "Chinese (Simplified)",
    "it" := "Italian", "ja" := "Japanese", "pt" := "Portuguese",
    "ru" := "Russian", "ar" := "Arabic", "hi" := "Hindi", "tr" := "Turkish",
    "nl" := "Dutch", "fr" := "French", "es" := "Spanish", "de" := "German",
    "bn" := "Bengali", "zh" := "Mandarin Chinese"]

  /** The characters the sanitisers delete: < > : " / \ | ? * */
  predicate IsUnsafe(c: char) {
    c in {'<', '>', ':', '"', '/', '\\', '|', '?', '*'}
  }

  function ValidateLanguage(code: string): (r: Result<bool, ValidationError>)
    ensures r.Success? <==> code != "" && code in Languages
    ensures r.Success? ==> r.value
    ensures code == "" ==> r == Failure(ValidationError("Language code cannot be empty"))
    ensures code != "" && code !in Languages ==>
              r == Failure(ValidationError("Invalid language code: " + code))
  {
    if code == "" then Failure(ValidationError("Language code cannot be empty"))
    else if code !in Languages then Failure(ValidationError("Invalid language code: " + code))
    else Success(true)
  }

  predicate IsSafe(c: char) {
    !IsUnsafe(c)
  }

  /** re.sub(r'[<>:"/\\|?*]', '', s): every unsafe character deleted. */
  function RemoveUnsafe(s: string): string {
    Keep(s, IsSafe)
  }

  /** The shared shape of sanitize_topic and sanitize_speech_type: reject empty
      or blank input, strip, reject text longer than `limit`, delete the unsafe
      characters, reject an empty remainder. */
  function SanitizeField(s: string, limit: nat, emptyMsg: string, longMsg: string, invalidMsg: string)
    : (r: Result<string, ValidationError>)
    ensures Strip(s) == "" ==> r == Failure(ValidationError(emptyMsg))
    ensures Strip(s) != "" && |Strip(s)| > limit ==> r == Failure(ValidationError(longMsg))
    ensures Strip(s) != "" && |Strip(s)| <= limit && RemoveUnsafe(Strip(s)) == "" ==>
              r == Failure(ValidationError(invalidMsg))
    ensures r.Success? <==> Strip(s) != "" && |Strip(s)| <= limit && RemoveUnsafe(Strip(s)) != ""
    ensures r.Success? ==> r.value == RemoveUnsafe(Strip(s))
    ensures r.Success? ==> r.value != "" && |r.value| <= |Strip(s)| <= limit
    ensures r.Success? ==> forall i :: 0 <= i < |r.value| ==> !IsUnsafe(r.value[i])
    ensures r.Success? ==>
              forall c :: multiset(r.value)[c] == if IsUnsafe(c) then 0 else multiset(Strip(s))[c]
  {
    if s == "" || Strip(s) == "" then Failure(ValidationError(emptyMsg))
    else
      var t := Strip(s);
      if |t| > limit then Failure(ValidationError(longMsg))
      else
        var sanitized := RemoveUnsafe(t);
        KeepCounts(t, IsSafe);
        KeepAccepted(t, IsSafe);
        if sanitized == "" then Failure(ValidationError(invalidMsg))
        else Success(sanitized)
  }

  function SanitizeTopic(topic: string): (r: Result<string, ValidationError>)
    ensures r.Success? <==>
              Strip(topic) != "" && |Strip(topic)| <= 200 && RemoveUnsafe(Strip(topic)) != ""
    ensures r.Success? ==> r.value == RemoveUnsafe(Strip(topic))
    ensures r.Success? ==> r.value != "" && |r.value| <= |Strip(topic)| <= 200
    ensures r.Success? ==> forall i :: 0 <= i < |r.value| ==> !IsUnsafe(r.value[i])
    ensures r.Success? ==>
              forall c :: multiset(r.value)[c] == if IsUnsafe(c) then 0 else multiset(Strip(topic))[c]
    ensures (forall i :: 0 <= i < |topic| ==> IsSpace(topic[i])) ==>
              r == Failure(ValidationError("Topic cannot be empty"))
  {
    StripEmptyIff(topic);
    SanitizeField(topic, 200, "Topic cannot be empty", "Topic too long (max 200 characters)",
                  "Topic contains only invalid characters")
  }

  function SanitizeSpeechType(speechType: string): (r: Result<string, ValidationError>)
    ensures r.Success? <==>
              Strip(speechType) != "" && |Strip(speechType)| <= 100 && RemoveUnsafe(Strip(speechType)) != ""
    ensures r.Success? ==> r.value == RemoveUnsafe(Strip(speechType))
    ensures r.Success? ==> r.value != "" && |r.value| <= |Strip(speechType)| <= 100
    ensures r.Success? ==> forall i :: 0 <= i < |r.value| ==> !IsUnsafe(r.value[i])
    ensures r.Success? ==>
              forall c :: multiset(r.value)[c] == if IsUnsafe(c) then 0 else multiset(Strip(speechType))[c]
    ensures (forall i :: 0 <= i < |speechType| ==> IsSpace(speechType[i])) ==>
              r == Failure(ValidationError("Speech type cannot be empty"))
  {
    StripEmptyIff(speechType);
    SanitizeField(speechType, 100, "Speech type cannot be empty",
                  "Speech type too long (max 100 characters)",
                  "Speech type contains only invalid characters")
  }

  /** str.lower() on the ASCII letters. */
  function AsciiLower(s: string): (r: string)
    ensures |r| == |s|
  {
    seq(|s|, i requires 0 <= i < |s| => if 'A' <= s[i] <= 'Z' then (s[i] as int + 32) as char else s[i])
  }

  predicate HasDoubleDot(s: string) {
    exists i :: 0 <= i < |s| - 1 && s[i] == '.' && s[i + 1] == '.'
  }

  /** The lower-cased name ends in ".wav" exactly when its last four characters
      are a dot followed by w, a and v in either case. */
  lemma LowerEndsWithWav(f: string)
    ensures EndsWith(AsciiLower(f), ".wav") <==>
              && |f| >= 4
              && f[|f| - 4] == '.'
              && f[|f| - 3] in {'w', 'W'}
              && f[|f| - 2] in {'a', 'A'}
              && f[|f| - 1] in {'v', 'V'}
  {
    var l := AsciiLower(f);
    if |f| >= 4 {
      var n := |f|;
      assert l[n - 4..] == [l[n - 4], l[n - 3], l[n - 2], l[n - 1]];
    }
  }

  function ValidateFilename(filename: string): (r: Result<bool, ValidationError>)
    ensures r.Success? <==>
              && filename != ""
              && |filename| >= 4
              && filename[|filename| - 4] == '.'
              && filename[|filename| - 3] in {'w', 'W'}
              && filename[|filename| - 2] in {'a', 'A'}
              && filename[|filename| - 1] in {'v', 'V'}
              && !HasDoubleDot(filename) && '/' !in filename && '\\' !in filename
    ensures r.Success? ==> r.value
  {
    LowerEndsWithWav(filename);
    if filename == "" then Failure(ValidationError("Filename cannot be empty"))
    else if !EndsWith(AsciiLower(filename), ".wav") then
      Failure(ValidationError("Invalid audio file format (must be .wav)"))
    else if HasDoubleDot(filename) || '/' in filename || '\\' in filename then
      Failure(ValidationError("Invalid filename (path traversal detected)"))
    else Success(true)
  }

  function ValidateDuration(duration: real): (r: Result<bool, ValidationError>)
    ensures r.Success? <==> 0.0 < duration <= 3600.0
    ensures r.Success? ==> r.value
    ensures duration <= 0.0 ==> r == Failure(ValidationError("Recording duration must be positive"))
  {
    if duration <= 0.0 then Failure(ValidationError("Recording duration must be positive"))
    else if duration > 3600.0 then Failure(ValidationError("Recording too long (max 1 hour)"))
    else Success(true)
  }
}
