/** The per-session recording store of the web API: two process-wide
    dictionaries, session id to list of recordings and session id to counter,
    and the functions that read and update them. An absent or empty session
    id is the empty string here; clock readings and formatted timestamps are
    parameters. */
module SessionStore {
  import opened Base

  /** One stored submission, with the fields `save_session_recording` builds. */
  datatype Recording = Recording(
    filename: string,
    audioData: seq<byte>,
    topic: string,
    speechType: string,
    transcription: string,
    feedback: string,
    size: nat,
    created: real,
    modified: real)

  /** The projection `get_session_recordings` returns for each recording. */
  datatype Listing = Listing(filename: string, size: nat, created: real, modified: real)

  function ListingOf(rec: Recording): Listing {
    Listing(rec.filename, rec.size, rec.created, rec.modified)
  }

  /** The regular-expression class \w, on ASCII: letters, digits, underscore. */
  predicate IsWordChar(c: char) {
    ('a' <= c <= 'z') || ('A' <= c <= 'Z') || ('0' <= c <= '9') || c == '_'
  }

  /** The characters re.sub(r'[^\w\s-]', '', s) keeps. */
  predicate IsNameChar(c: char) {
    IsWordChar(c) || IsSpace(c) || c == '-'
  }

  /** re.sub(r'[^\w\s-]', '', s). */
  function RemoveSymbols(s: string): string {
    Keep(s, IsNameChar)
  }

  /** The topic part of a session file name: symbols removed, cut to 20
      characters, then each space made an underscore. */
  function SessionTopic(topic: string): string {
    var kept := RemoveSymbols(topic);
    var cut := if |kept| > 20 then kept[..20] else kept;
    seq(|cut|, i requires 0 <= i < |cut| => if cut[i] == ' ' then '_' else cut[i])
  }

  lemma SessionTopicShape(topic: string)
    ensures |SessionTopic(topic)| <= 20
    ensures forall i :: 0 <= i < |SessionTopic(topic)| ==>
              SessionTopic(topic)[i] != ' ' && IsNameChar(SessionTopic(topic)[i])
  {
    KeepAccepted(topic, IsNameChar);
  }

  /** The name `generate_session_filename` returns for counter value `n`;
      `timestamp` stands for datetime.now() formatted as "%Y%m%d_%H%M%S". */
  function SessionFilename(topic: string, timestamp: string, n: nat): string {
    SessionTopic(topic) + "_" + timestamp + "_" + NatToString(n) + ".wav"
  }

  /** The position of the last occurrence of `c`, or -1. */
  function LastIndexOf(s: string, c: char): int
    ensures -1 <= LastIndexOf(s, c) < |s|
  {
    if s == [] then -1
    else if s[|s| - 1] == c then |s| - 1
    else LastIndexOf(s[..|s| - 1], c)
  }

  /** The last underscore of `x + "_" + d` is the separator when `d` has none. */
  lemma {:induction false} LastUnderscoreIsSeparator(x: string, d: string)
    requires forall i :: 0 <= i < |d| ==> d[i] != '_'
    ensures LastIndexOf(x + "_" + d, '_') == |x|
    decreases |d|
  {
    var s := x + "_" + d;
    if d != [] {
      var init := d[..|d| - 1];
      LastUnderscoreIsSeparator(x, init);
      assert s[..|s| - 1] == x + "_" + init;
    }
  }

  /** When two strings end in an underscore followed by digits, equal strings
      have equal digit parts. */
  lemma SameDigitSuffix(x1: string, d1: string, x2: string, d2: string)
    requires forall i :: 0 <= i < |d1| ==> IsDigit(d1[i])
    requires forall i :: 0 <= i < |d2| ==> IsDigit(d2[i])
    requires x1 + "_" + d1 == x2 + "_" + d2
    ensures d1 == d2
  {
    var s := x1 + "_" + d1;
    LastUnderscoreIsSeparator(x1, d1);
    LastUnderscoreIsSeparator(x2, d2);
    assert |d1| == |d2|;
    assert d1 == s[|s| - |d1|..];
  }

  /** File names minted from different counter values differ, whatever the
      topics and timestamps. */
  lemma SessionFilenamesDiffer(topic1: string, ts1: string, n1: nat, topic2: string, ts2: string, n2: nat)
    requires n1 != n2
    ensures SessionFilename(topic1, ts1, n1) != SessionFilename(topic2, ts2, n2)
  {
    var x1 := SessionTopic(topic1) + "_" + ts1;
    var x2 := SessionTopic(topic2) + "_" + ts2;
    var d1, d2 := NatToString(n1), NatToString(n2);
    if SessionFilename(topic1, ts1, n1) == SessionFilename(topic2, ts2, n2) {
      var s1, s2 := x1 + "_" + d1, x2 + "_" + d2;
      assert SessionFilename(topic1, ts1, n1) == s1 + ".wav";
      assert SessionFilename(topic2, ts2, n2) == s2 + ".wav";
      assert s1 == (s1 + ".wav")[..|s1 + ".wav"| - 4];
      assert s2 == (s2 + ".wav")[..|s2 + ".wav"| - 4];
      SameDigitSuffix(x1, d1, x2, d2);
      NatToStringInjective(n1, n2);
      assert false;
    }
  }

  /** The position of the first recording named `filename`. */
  function FirstIndex(recs: seq<Recording>, filename: string): (r: Option<nat>)
    ensures r.Some? ==> r.value < |recs| && recs[r.value].filename == filename
    ensures r.Some? ==> forall j :: 0 <= j < r.value ==> recs[j].filename != filename
    ensures r.None? ==> forall j :: 0 <= j < |recs| ==> recs[j].filename != filename
  {
    if recs == [] then None
    else if recs[0].filename == filename then Some(0)
    else match FirstIndex(recs[1..], filename)
      case None => None
      case Some(k) => Some(k + 1)
  }

  /** Any position holding the name with none before it is the first index. */
  lemma FirstIndexIs(recs: seq<Recording>, filename: string, i: nat)
    requires i < |recs| && recs[i].filename == filename
    requires forall j :: 0 <= j < i ==> recs[j].filename != filename
    ensures FirstIndex(recs, filename) == Some(i)
  {
  }

  /** The list comprehension of `delete_session_recording`. */
  function RemoveNamed(recs: seq<Recording>, filename: string): seq<Recording> {
    if recs == [] then []
    else (if recs[0].filename == filename then [] else [recs[0]]) + RemoveNamed(recs[1..], filename)
  }

  /** Deleting by name removes every record with that name and keeps every
      other record, as often as it occurred. */
  lemma {:induction false} RemoveNamedCounts(recs: seq<Recording>, filename: string)
    ensures forall r :: multiset(RemoveNamed(recs, filename))[r] ==
              if r.filename == filename then 0 else multiset(recs)[r]
  {
    if recs != [] {
      RemoveNamedCounts(recs[1..], filename);
      assert recs == [recs[0]] + recs[1..];
      assert multiset(recs) == multiset([recs[0]]) + multiset(recs[1..]);
    }
  }

  /** The kept records stay in their original order: the deletion distributes
      over concatenation. */
  lemma {:induction false} RemoveNamedAppend(a: seq<Recording>, b: seq<Recording>, filename: string)
    ensures RemoveNamed(a + b, filename) == RemoveNamed(a, filename) + RemoveNamed(b, filename)
  {
    if a == [] {
      assert a + b == b;
    } else {
      RemoveNamedAppend(a[1..], b, filename);
      var head := if a[0].filename == filename then [] else [a[0]];
      calc {
        RemoveNamed(a + b, filename);
        { assert (a + b)[0] == a[0]; }
        head + RemoveNamed((a + b)[1..], filename);
        { assert (a + b)[1..] == a[1..] + b; }
        head + RemoveNamed(a[1..] + b, filename);
        head + (RemoveNamed(a[1..], filename) + RemoveNamed(b, filename));
      }
    }
  }

  /** The list shrinks exactly when some record carried the name. */
  lemma {:induction false} RemoveNamedShrinks(recs: seq<Recording>, filename: string)
    ensures |RemoveNamed(recs, filename)| <= |recs|
    ensures |RemoveNamed(recs, filename)| < |recs| <==> exists i :: 0 <= i < |recs| && recs[i].filename == filename
  {
    if recs != [] {
      RemoveNamedShrinks(recs[1..], filename);
      if recs[0].filename != filename {
        if exists i :: 0 <= i < |recs| && recs[i].filename == filename {
          var i :| 0 <= i < |recs| && recs[i].filename == filename;
          assert recs[1..][i - 1].filename == filename;
        }
      }
    }
  }

  /** The recordings with the feedback of the first one named `filename`
      replaced; unchanged when there is none. */
  function WithFeedback(recs: seq<Recording>, filename: string, feedback: string): (r: seq<Recording>)
    ensures |r| == |recs|
  {
    match FirstIndex(recs, filename)
    case None => recs
    case Some(i) => recs[i := recs[i].(feedback := feedback)]
  }

  /** The two dictionaries `user_sessions` and `session_counters`. */
  class Store {
    var sessions: map<string, seq<Recording>>
    var counters: map<string, nat>

    /** No entry under the empty id, and every session has a counter. Every
        method keeps it; the contracts state the new maps outright and do
        not depend on it. */
    ghost predicate Valid()
      reads this
    {
      "" !in counters && sessions.Keys <= counters.Keys
    }

    constructor ()
      ensures Valid()
      ensures sessions == map[] && counters == map[]
    {
      sessions := map[];
      counters := map[];
    }

    /** session_counters.get(sid, 0). */
    function Counter(sid: string): nat
      reads this
    {
      if sid in counters then counters[sid] else 0
    }

    /** The recordings of a session, empty when it is unknown. */
    function RecordsOf(sid: string): seq<Recording>
      reads this
    {
      if sid in sessions then sessions[sid] else []
    }

    /** `ensure_session_exists`: creates an empty list and a zero counter
        only for a non-empty unknown id. */
    method EnsureSessionExists(sid: string)
      requires Valid()
      modifies this
      ensures Valid()
      ensures sid != "" && sid !in old(sessions) ==>
                sessions == old(sessions)[sid := []] && counters == old(counters)[sid := 0]
      ensures !(sid != "" && sid !in old(sessions)) ==>
                sessions == old(sessions) && counters == old(counters)
    {
      if sid != "" && sid !in sessions {
        sessions := sessions[sid := []];
        counters := counters[sid := 0];
      }
    }

    /** `generate_session_filename`: None for a missing id; otherwise the
        counter of the id goes up by exactly one and names the file. */
    method GenerateSessionFilename(sid: string, topic: string, timestamp: string) returns (name: Option<string>)
      requires Valid()
      modifies this
      ensures Valid()
      ensures sessions == old(sessions)
      ensures sid == "" ==> name == None && counters == old(counters)
      ensures sid != "" ==> counters == old(counters)[sid := old(Counter(sid)) + 1]
      ensures sid != "" ==> name == Some(SessionFilename(topic, timestamp, old(Counter(sid)) + 1))
    {
      if sid == "" {
        return None;
      }
      var next := Counter(sid) + 1;
      counters := counters[sid := next];
      name := Some(SessionFilename(topic, timestamp, next));
    }

    /** `save_session_recording`: False for a missing id; otherwise the
        session is created if needed and one record is appended. Both clock
        readings are `now`. */
    method SaveSessionRecording(sid: string, filename: string, audioData: seq<byte>, topic: string,
                                speechType: string, transcription: string, feedback: string, now: real)
      returns (ok: bool)
      requires Valid()
      modifies this
      ensures Valid()
      ensures ok == (sid != "")
      ensures !ok ==> sessions == old(sessions) && counters == old(counters)
      ensures ok ==> sessions == old(sessions)[sid := old(RecordsOf(sid)) +
                [Recording(filename, audioData, topic, speechType, transcription, feedback, |audioData|, now, now)]]
      ensures ok ==> counters == if sid in old(sessions) then old(counters) else old(counters)[sid := 0]
    {
      if sid == "" {
        return false;
      }
      EnsureSessionExists(sid);
      var rec := Recording(filename, audioData, topic, speechType, transcription, feedback, |audioData|, now, now);
      sessions := sessions[sid := sessions[sid] + [rec]];
      ok := true;
    }

    /** `get_session_recordings`: one projection per record, in stored order. */
    function GetSessionRecordings(sid: string): (r: seq<Listing>)
      reads this
      ensures sid == "" || sid !in sessions ==> r == []
      ensures sid != "" && sid in sessions ==>
                |r| == |sessions[sid]| &&
                forall i :: 0 <= i < |r| ==> r[i] == ListingOf(sessions[sid][i])
    {
      if sid == "" || sid !in sessions then []
      else
        var recs := sessions[sid];
        seq(|recs|, i requires 0 <= i < |recs| => ListingOf(recs[i]))
    }

    /** `get_session_recording_data`: the first record with the name, or None. */
    function GetSessionRecordingData(sid: string, filename: string): (r: Option<Recording>)
      reads this
      ensures r.Some? <==>
                sid != "" && sid in sessions &&
                exists i :: 0 <= i < |sessions[sid]| && sessions[sid][i].filename == filename
      ensures r.Some? ==>
                exists i :: 0 <= i < |sessions[sid]| && sessions[sid][i] == r.value &&
                  r.value.filename == filename &&
                  forall j :: 0 <= j < i ==> sessions[sid][j].filename != filename
    {
      if sid == "" || sid !in sessions then None
      else match FirstIndex(sessions[sid], filename)
        case None => None
        case Some(i) => Some(sessions[sid][i])
    }

    /** `delete_session_recording`: every record with the name removed;
        True exactly when the list shrank. */
    method DeleteSessionRecording(sid: string, filename: string) returns (ok: bool)
      requires Valid()
      modifies this
      ensures Valid()
      ensures counters == old(counters)
      ensures !(sid != "" && sid in old(sessions)) ==> !ok && sessions == old(sessions)
      ensures sid != "" && sid in old(sessions) ==>
                sessions == old(sessions)[sid := RemoveNamed(old(sessions)[sid], filename)]
      ensures sid != "" && sid in old(sessions) ==>
                (ok <==> exists i :: 0 <= i < |old(sessions)[sid]| && old(sessions)[sid][i].filename == filename)
    {
      if sid == "" || sid !in sessions {
        return false;
      }
      var initialCount := |sessions[sid]|;
      RemoveNamedShrinks(sessions[sid], filename);
      sessions := sessions[sid := RemoveNamed(sessions[sid], filename)];
      ok := |sessions[sid]| < initialCount;
    }

    /** `clear_all_session_recordings`: an existing session is emptied and
        its counter reset; otherwise nothing changes. */
    method ClearAllSessionRecordings(sid: string) returns (ok: bool)
      requires Valid()
      modifies this
      ensures Valid()
      ensures ok == (sid != "" && sid in old(sessions))
      ensures ok ==> sessions == old(sessions)[sid := []] && counters == old(counters)[sid := 0]
      ensures !ok ==> sessions == old(sessions) && counters == old(counters)
    {
      if sid == "" {
        return false;
      }
      if sid in sessions {
        sessions := sessions[sid := []];
        counters := counters[sid := 0];
        return true;
      }
      return false;
    }

    /** `cleanup_session`: the id leaves both dictionaries. */
    method CleanupSession(sid: string)
      requires Valid()
      modifies this
      ensures Valid()
      ensures sessions == old(sessions) - {sid} && counters == old(counters) - {sid}
      ensures sid !in sessions && sid !in counters
    {
      if sid in sessions {
        sessions := sessions - {sid};
      }
      if sid in counters {
        counters := counters - {sid};
      }
    }

    /** The write at the end of the feedback stream: the loop over the
        session's records sets the feedback of the first one with the name
        and stops. */
    method SetFirstFeedback(sid: string, filename: string, feedback: string)
      requires Valid()
      modifies this
      ensures Valid()
      ensures counters == old(counters)
      ensures sid in old(sessions) ==>
                sessions == old(sessions)[sid := WithFeedback(old(sessions)[sid], filename, feedback)]
      ensures sid !in old(sessions) ==> sessions == old(sessions)
    {
      if sid !in sessions {
        return;
      }
      var recs := sessions[sid];
      var i := 0;
      while i < |recs|
        invariant 0 <= i <= |recs|
        invariant sessions == old(sessions) && recs == sessions[sid]
        invariant forall j :: 0 <= j < i ==> recs[j].filename != filename
      {
        if recs[i].filename == filename {
          FirstIndexIs(recs, filename, i);
          sessions := sessions[sid := recs[i := recs[i].(feedback := feedback)]];
          return;
        }
        i := i + 1;
      }
    }
  }
}
