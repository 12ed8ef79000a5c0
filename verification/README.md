# Speechly core in Dafny

Speechly is a speech-practice service. A user records a short speech on a
topic. The web API transcribes it, stores it in a per-session recording list
and streams coaching feedback from a chat model. This project models the
logic of that service and proves what it promises:

- **The session store** (`SessionStore`). It holds the two process-wide
  dictionaries of the web API, session id to recordings and session id to
  counter, as a class with two `map` fields. The functions that create,
  name, append, list, look up, delete, clear and destroy session data are
  its methods and functions.
- **Submission gating** (`Submission`). This is the production path of
  `POST /api/record`: the ordered checks, the clean-up of the text fields,
  the language fallback, the transcription and length gates, then the
  minted file name and the stored record.
- **Prompt selection** (`FeedbackPrompt`). A prompt is either the short
  template or the full one, chosen by the estimated duration, and ends with
  the answer-language instruction.
- **The feedback stream** (`FeedbackStream`). It relays the chat model's
  deltas as chunk events, closes with a completion or error event, then
  writes the joined text back into the stored recording.
- **Input validation** (`Validator`): language codes, topics, speech types,
  file names and durations.
- **File naming** (`FileManager`): cleaning a topic into a file name,
  extension handling, path building, and the sorted listing of recordings.
- **`SpeechDataManager`** (`SpeechManager`): the in-memory store of
  transcriptions and scores.
- **Shared string rules** (`Base`): Python's whitespace, `str.strip`,
  filtering with a character class, and decimal rendering of counters.

Outside services are parameters. The base64 decoder, the speech-to-text
service and the chat model are functions the caller supplies; a `Failure`
from one of them stands for the exception it raises. Clock readings and
formatted timestamps are also parameters, and so are the recordings
directory, the audio extension and the directory listing.

Durations are never computed in floating point. The audio is 16-bit mono at
44100 Hz, so a second is 88200 bytes. Every duration threshold is a
comparison of the byte count, and the contracts state it on the exact
quotient `FeedbackPrompt.Duration`.

## Model

| member | source | states |
|---|---|---|
| Base.TrimStart | validator.py:31 | The result is a suffix of the input, starts with a non-whitespace character or is empty, and everything dropped was whitespace. |
| Base.TrimEnd | validator.py:31 | The result is a prefix of the input, ends with a non-whitespace character or is empty, and everything dropped was whitespace. |
| Base.StripEmptyIff | validator.py:27 | `s.strip()` is empty exactly when every character of `s` is Python whitespace. |
| Base.StripKeepsChars | validator.py:31 | Stripping never lengthens a string and keeps only characters of the input. |
| Base.KeepCounts | validator.py:38 | Deleting a character class keeps every other character exactly as often as it occurred and removes every member of the class. |
| Base.KeepAccepted | web_api.py:449 | Every character left after the deletion is one the class accepts, and the result is never longer. |
| Base.KeepIdentity | web_api.py:449 | Text with nothing to delete comes back unchanged. |
| Base.KeepAppend | web_api.py:449 | The deletion distributes over concatenation, so the kept characters stay in their original order. |
| Base.DigitChar | web_api.py:76 | The character for a digit value below 10 is a decimal digit. |
| Base.NatToString | web_api.py:76 | The decimal rendering of a counter is non-empty, made only of digits, and has no leading zero for a positive counter. |
| Base.ParseNatToString | web_api.py:76 | Reading the decimal rendering back gives the counter again. |
| Base.NatToStringInjective | web_api.py:76 | Different counters render differently. |
| Validator.ValidateLanguage | validator.py:13-22 | Accepts exactly the non-empty keys of the 16-entry language table; an empty code and an unknown code each fail with their own message. |
| Validator.SanitizeField | validator.py:25-66 | Fails for blank input, then for stripped input over the limit, then for a stripped input made only of the nine unsafe characters (angle brackets, colon, double quote, both slashes, vertical bar, question mark, asterisk), each with its message. On success the result is the stripped input with exactly those nine characters deleted and every other character kept in its order (`RemoveUnsafe` is `Base.Keep`, whose order is `Base.KeepAppend`). It is non-empty, within the limit, free of the nine characters, and keeps every other character as often as it occurred. |
| Validator.SanitizeTopic | validator.py:25-44 | Succeeds iff the stripped topic is non-empty, at most 200 characters and not made only of the nine unsafe characters. The result is the stripped topic with them deleted and the rest in order, and whitespace-only input fails with "Topic cannot be empty". |
| Validator.SanitizeSpeechType | validator.py:47-66 | The same rules with a 100-character limit and the speech-type messages: the result is the stripped speech type with the nine characters deleted and the rest in order. |
| Validator.LowerEndsWithWav | validator.py:75 | The lower-cased name ends in ".wav" iff its last four characters are a dot and then w, a, v in either case. |
| Validator.ValidateFilename | validator.py:69-83 | Accepts iff the name is non-empty, ends in ".wav" ignoring case, and contains no "..", no "/" and no "\\". |
| Validator.ValidateDuration | validator.py:101-110 | Accepts iff 0 < duration ≤ 3600; a non-positive duration fails with "Recording duration must be positive". |
| FileManager.ReplaceChar | file_manager.py:36 | Replacing one character by another keeps the length. |
| FileManager.MaskInvalid | file_manager.py:34-36 | Masking the invalid characters keeps the length. |
| FileManager.SplitFromWords | file_manager.py:39 | Every word produced while splitting is non-empty, holds no whitespace, and is made of characters of the pending word and the remaining input. |
| FileManager.SplitWords | file_manager.py:39 | Every word of `str.split()` is non-empty, free of whitespace, and made of characters of the input. |
| FileManager.SplitFromNoSpace | file_manager.py:39 | Splitting text without whitespace yields the pending word followed by that text, as a single word. |
| FileManager.SplitNoSpace | file_manager.py:39 | Non-empty text without whitespace splits into itself alone. |
| FileManager.SplitFromSpaces | file_manager.py:39 | Whitespace alone only closes the pending word. |
| FileManager.SplitFromLeadingSpaces | file_manager.py:39 | Leading whitespace produces no word. |
| FileManager.SplitFromTrailingSpaces | file_manager.py:39 | Trailing whitespace produces no word. |
| FileManager.SplitFromAtSpace | file_manager.py:39 | A whitespace character splits the text into the words before it followed by the words after it. |
| FileManager.SplitSpaceRun | file_manager.py:39 | A whitespace run of any length between two texts gives the words of the first followed by the words of the second, and no word of its own. |
| FileManager.SplitTrimmed | file_manager.py:39 | Leading and trailing whitespace runs add no word. |
| FileManager.CleanNameCollapses | file_manager.py:31-45 | Two plain words with whitespace runs before, between and after them clean to the first word, one `_`, and the second word: the inner run becomes a single `_` and the outer runs vanish. |
| FileManager.JoinChars | file_manager.py:39 | Every character of `sep.join(words)` comes from a word or from the separator. |
| FileManager.CleanNameSafe | file_manager.py:31-45 | A cleaned name is at most 50 characters and holds no invalid character and no whitespace; when the collapsed text fits in 50 it is not cut. |
| FileManager.CleanNameReplaces | file_manager.py:34-36 | Invalid characters are replaced by `_`, not removed: a short name without whitespace keeps its length and every other character in place. |
| FileManager.CleanFilename | file_manager.py:31-45 | The replace loop, collapse and cut compute `CleanName` of the input, so the result is at most 50 characters with no invalid character and no whitespace. |
| FileManager.PathJoin | file_manager.py:29 | The joined path ends with the file name. |
| FileManager.WithExtension | file_manager.py:49-50 | The result always ends with the extension; a name already ending with it is returned as it is, any other gets it appended once. |
| FileManager.GetRecordingPath | file_manager.py:47-52 | The path ends with the extension; it joins the name as it is when the name already ends with the extension, otherwise the name plus the extension. |
| FileManager.EndsWithTransitive | file_manager.py:52 | A suffix of a suffix is a suffix, so the joined path keeps the extension. |
| FileManager.WithExtensionIdempotent | file_manager.py:49-50 | Adding the extension twice gives the same name as adding it once. |
| FileManager.GenerateFilename | file_manager.py:18-29 | The path is the directory joined with the cleaned topic, then `_` and the timestamp when one is asked for, then the extension; it always ends with the extension. |
| FileManager.WithExtMembers | file_manager.py:59-62 | The filtered listing holds exactly the entries that end with the extension. |
| FileManager.LexLeTotal | file_manager.py:64 | Any two names are ordered one way or the other. |
| FileManager.LexLeTransitive | file_manager.py:64 | The string order is transitive. |
| FileManager.InsertPermutes | file_manager.py:64 | Inserting into the sorted list adds exactly the one element. |
| FileManager.InsertSorted | file_manager.py:64 | Inserting into a sorted list keeps it sorted. |
| FileManager.SortStringsCorrect | file_manager.py:64 | Sorting yields an ascending permutation of its input. |
| FileManager.ListRecordings | file_manager.py:54-64 | A missing directory gives []. Otherwise the result is sorted ascending, is a permutation of the entries ending with the extension, and holds a name iff the listing holds it with that ending. |
| SpeechManager.SpeechDataManager.constructor | speech_manager.py:4-6 | Both dictionaries start empty. |
| SpeechManager.SpeechDataManager.AddSpeechData | speech_manager.py:8-12 | The transcription is stored, overwriting an older one, and no other name's transcription or `has_previous_speech` answer changes. A score is stored only when present and non-zero; otherwise the scores, including an older score for the name, stay as they were. |
| SpeechManager.SpeechDataManager.GetPreviousTranscription | speech_manager.py:14-16 | Some transcription exactly when the name was added, with the stored value. |
| SpeechManager.SpeechDataManager.GetPreviousScore | speech_manager.py:18-20 | Some score exactly when one was stored for the name, with that value. |
| SpeechManager.SpeechDataManager.HasPreviousSpeech | speech_manager.py:22-24 | Holds exactly when a transcription is stored for the name; `AddSpeechData` makes it hold for the added name and leaves it for every other name, and `ClearSessionData` makes it false everywhere, so it holds iff the name was added since the last clear. |
| SpeechManager.SpeechDataManager.ListPreviousSpeeches | speech_manager.py:26-28 | The listing holds exactly the names with a stored speech, each once, in first-insertion order. |
| SpeechManager.SpeechDataManager.GetSpeechCount | speech_manager.py:35-37 | The count equals the length of the listing. |
| SpeechManager.SpeechDataManager.ClearSessionData | speech_manager.py:30-33 | Both dictionaries are empty afterwards, the count is 0, every lookup gives None, and no name has a previous speech. |
| SpeechManager.DistinctCount | speech_manager.py:35-37 | A list without repeats has as many elements as the set of its elements. |
| SpeechManager.AddCountsDistinctNames | speech_manager.py:8-10 | Adding a known name keeps the count, and a new name raises it by one. |
| SessionStore.SessionTopicShape | web_api.py:72-73 | The topic part of a session file name has at most 20 characters and no space; each character is a word character, other whitespace, or a hyphen. |
| SessionStore.LastIndexOf | web_api.py:76 | The position of the last occurrence is -1 or inside the string. |
| SessionStore.LastUnderscoreIsSeparator | web_api.py:76 | In `x + "_" + digits`, the last underscore is the separator before the digits. |
| SessionStore.SameDigitSuffix | web_api.py:76 | Equal names ending in `_` and digits end in the same digits. |
| SessionStore.SessionFilenamesDiffer | web_api.py:65-76 | Names minted from different counter values differ, whatever the topics and timestamps. |
| SessionStore.FirstIndex | web_api.py:114-117 | The result is the position of the first recording with the name, or None when no recording has it. |
| SessionStore.FirstIndexIs | web_api.py:114-117 | A position that holds the name with none before it is the first index. |
| SessionStore.RemoveNamedCounts | web_api.py:124 | Deleting by name removes every record with the name and keeps every other record as often as it occurred. |
| SessionStore.RemoveNamedAppend | web_api.py:124 | The deletion distributes over concatenation, so the kept records keep their order. |
| SessionStore.RemoveNamedShrinks | web_api.py:123-125 | The list never grows, and it shrinks exactly when some record carried the name. |
| SessionStore.WithFeedback | web_api.py:711-714 | Updating the feedback of the first match keeps the number of records. |
| SessionStore.Store.constructor | web_api.py:53-54 | Both dictionaries start empty. |
| SessionStore.Store.EnsureSessionExists | web_api.py:59-62 | Only a non-empty unknown id gets an empty list and a zero counter; otherwise nothing changes. |
| SessionStore.Store.GenerateSessionFilename | web_api.py:65-76 | A missing id gives None and changes nothing. Otherwise the counter of the id rises by exactly one and names the file: cleaned topic, `_`, timestamp, `_`, counter, ".wav". |
| SessionStore.Store.SaveSessionRecording | web_api.py:78-97 | A missing id gives False and changes nothing. Otherwise exactly one record is appended at the end, with the given feedback and `size` the audio length; earlier records and other sessions are unchanged, and a new session gets a zero counter. |
| SessionStore.Store.GetSessionRecordings | web_api.py:99-108 | One projection per record in stored order, or [] for a missing or unknown id. |
| SessionStore.Store.GetSessionRecordingData | web_api.py:110-117 | Some exactly when the session holds a record with the name, and then it is the first such record. |
| SessionStore.Store.DeleteSessionRecording | web_api.py:119-125 | An unknown session gives False with no change. Otherwise every record with the name is removed, the rest are kept in order, and the result is True iff a record had the name. |
| SessionStore.Store.ClearAllSessionRecordings | web_api.py:127-136 | An existing session is emptied, its counter set to 0, and the result is True; otherwise False with no change. |
| SessionStore.Store.CleanupSession | web_api.py:138-142 | Afterwards the id is in neither dictionary and nothing else changed. |
| SessionStore.Store.SetFirstFeedback | web_api.py:711-714 | The loop sets the feedback of the first record with the name and stops; other records and sessions, and all counters, are unchanged. |
| FeedbackPrompt.DurationCompare | web_api.py:565 | Comparing the duration with whole seconds is comparing the byte count with that many seconds of audio. |
| FeedbackPrompt.LanguageName | web_api.py:583-601 | A code in the 15-entry table gives its name; any other code gives "English". |
| FeedbackPrompt.BuildFeedbackPrompt | web_api.py:568-680 | The short template is used iff 5 < duration < 20 seconds. `seconds` is the whole part of the duration, and the full template's target is the whole part of 0.9 × duration. Topic, type and transcription are inserted as given, the repeat context is empty, and the language instruction names the table's language. |
| FeedbackPrompt.SameLanguageInstruction | web_api.py:602-603 | Both templates close with the same language sentence, and an unknown code asks for English. |
| FeedbackPrompt.RepeatIgnored | web_api.py:568-580 | The repeat flag and the previous transcription never change the prompt. |
| Submission.Prefix | web_api.py:449-450 | `s[:n]` is a prefix of `s` of at most n characters, and all of `s` when it fits. |
| Submission.RequestLanguage | web_api.py:452-454 | The language is one of the 15 accepted codes; a missing or unsupported code becomes "en". |
| Submission.WhisperLanguage | web_api.py:480 | "zh" is sent as "zh-CN", and every other code as it is. |
| Submission.Intake | web_api.py:417-445 | A missing session id, then a missing body, then a blank topic, blank speech type or empty audio field each fail with their own message. It passes exactly when none of these holds. |
| Submission.Screen | web_api.py:447-500 | The gates in the handler's order, each with its own outcome: an undecodable payload gives 400 "Invalid audio data: " and the decoder's text; a transcriber exception gives 500 with its text; a stripped transcript under 3 characters gives 400 "Could not transcribe audio"; a duration of at most 5 seconds gives 400 "Speech was too short…". On success the topic and type are the stripped fields with symbols removed and cut to 100 and 50 characters, the language has the "en" fallback, and the audio and transcription are what the decoder and the service returned. |
| Submission.Admit | web_api.py:416-500 | The intake errors come first. On success the session id, body and fields were present. Every error is a 400 or a 500. |
| Submission.LengthGate | web_api.py:490-497 | With the fields present and a usable transcription, a submission is admitted iff its duration is over 5 seconds. |
| Submission.CleanedFieldShape | web_api.py:449-450 | A field cleaned by the symbol deletion and the cut to n holds only word characters, whitespace and hyphens, has at most n characters, and is the field itself when that already qualifies. |
| Submission.AdmittedTopicShape | web_api.py:447-450 | An admitted topic holds only word characters, whitespace and hyphens, has at most 100 characters, and is the stripped topic itself when that already qualifies; the speech type likewise with 50. |
| Submission.Response | web_api.py:520-532 | The score type is short iff the duration is under 30 seconds, and the stream URL names the session and the file. |
| Submission.StoreSubmission | web_api.py:502-532 | The counter names the file. One record with empty feedback is appended, and the response is built. A session the store did not know ends with a zero counter. |
| Submission.NamesDifferInKnownSession | web_api.py:502-518 | In a session the store already holds, two stored submissions get different names. |
| Submission.NewSessionRepeatsCounter | web_api.py:502-518 | The first two submissions of an unknown session both use counter value 1, so with one topic and one timestamp second they get the same name. |
| Submission.ProcessRecording | web_api.py:415-533 | A rejected request returns its error and leaves both dictionaries unchanged. An admitted one is stored and answered as in `StoreSubmission`. |
| FeedbackStream.ContentsAppend | web_api.py:697-702 | The text of a run of events distributes over concatenation. |
| FeedbackStream.ChunkEventsFaithful | web_api.py:697-702 | The relayed events are all chunks, one per delta with content, and their texts concatenate to the joined feedback. |
| FeedbackStream.StreamEndsOnce | web_api.py:697-708 | A stream has one event per content delta plus exactly one closing event at the end. After a clean finish, that event is the completion carrying the chunk count. |
| FeedbackStream.StreamFeedback | web_api.py:553-717 | A missing recording gives the single event "Recording not found" and no change. Otherwise the events are the chunks in upstream order, then the completion count or the error text. After a clean finish the joined text becomes the feedback of the first record with the name; after a failure the store is unchanged. |

## Left out

- Flask plumbing is not modelled: routing, `jsonify`, CORS, the global error handler, and the `data: …` JSON framing of server-sent events. Responses and events are datatypes.
- The development-mode branches are not modelled (they go through `speech_evaluator` and the file system), and neither is the non-production fall-through of `process_recording`, which returns nothing.
- The temporary file written and removed around transcription is not modelled; it only carries the bytes to the service.
- The base64 decoder, the speech-to-text service and the chat model are not modelled: each is a function parameter whose outcome the model relays.
- Concurrency is not modelled: the dictionaries have no locking and calls are taken one at a time.
- Cancellation of a stream half-way is not modelled.
- `validate_file_exists`, `recording_exists`, `delete_recording` and the directory helpers of `FileManager` are left out because they only query or change the file system.
- SessionStore.IsWordChar: the regular-expression class `\w` is Unicode-aware in Python; the model accepts only ASCII letters, digits and `_`.
- Validator.AsciiLower: `str.lower()` is applied to ASCII letters only, so a name ending in a non-ASCII letter whose lower case is "v" is not covered.
- Submission.Submitted: the response's `round(duration, 1)` is left out because it is float rounding; the byte count is kept instead.
- FeedbackPrompt.BuildFeedbackPrompt: the literal template text is left out, including `topic.upper()` and `speech_type.title()` in the full template. `int(duration * 0.9)` is taken on the exact quotient, and float rounding could differ from that by one at exact multiples.
- SessionStore.Store.SaveSessionRecording: the two `time.time()` readings are one `now` parameter, so `created` and `modified` are equal in the model.
- Submission.Intake: a request body that is not JSON, is malformed, or is a non-empty JSON value other than an object makes `get_json` or `data.get` raise, and the handler answers 500 with the exception text; the model has no such body. Only a falsy JSON value (null, an empty object, an empty list) is the `None` body that gives "No data provided".
- Validator.ValidateDuration: the duration is a real number, so a float NaN, which fails both comparisons in the source and is therefore accepted, is not modelled.
- Submission.RecordBody: the fields are strings or absent; a JSON value of another type, which would raise in `.strip()`, is not modelled.
- Submission.ProcessRecording: the "Failed to generate filename" branch is not modelled, because a non-empty session id always gets a name.
- `is_repeat` and `previous_filename` are read from the request and never used, so they are not part of `RecordBody`.
- FileManager.PathJoin: only the POSIX form of `os.path.join` is modelled.
- SpeechManager.SpeechDataManager.AddSpeechData: scores are integers; a float score is not modelled.
- Settings module `config.py` is not part of this model beyond the language table, the 5 s and 20 s thresholds, and the recordings directory and extension, which are parameters because `config.py` does not define them.
