/** `SpeechDataManager`: two dictionaries, file name to transcription and file
    name to score, updated in place. Python dictionaries remember the order in
    which keys were first inserted; `order` keeps that order for the
    transcription dictionary, whose keys `list_previous_speeches` returns. */
module SpeechManager {
  import opened Base

  class SpeechDataManager {
    var previousScores: map<string, int>
    var previousSpeeches: map<string, string>
    var order: seq<string>

    /** `order` lists the keys of `previousSpeeches`, each once. */
    ghost predicate Valid()
      reads this
    {
      && (forall i, j :: 0 <= i < j < |order| ==> order[i] != order[j])
      && (forall f :: f in previousSpeeches <==> f in order)
    }

    constructor ()
      ensures Valid()
      ensures previousScores == map[] && previousSpeeches == map[] && order == []
    {
      previousScores := map[];
      previousSpeeches := map[];
      order := [];
    }

    /** `add_speech_data`: the transcription always overwrites; the score is
        stored only when it is truthy (present and non-zero). */
    method AddSpeechData(filename: string, transcription: string, score: Option<int>)
      requires Valid()
      modifies this
      ensures Valid()
      ensures previousSpeeches == old(previousSpeeches)[filename := transcription]
      ensures GetPreviousTranscription(filename) == Some(transcription)
      ensures forall f :: f != filename ==> GetPreviousTranscription(f) == old(GetPreviousTranscription(f))
      ensures score.Some? && score.value != 0 ==>
                previousScores == old(previousScores)[filename := score.value]
      ensures !(score.Some? && score.value != 0) ==> previousScores == old(previousScores)
      ensures order == if filename in old(previousSpeeches) then old(order) else old(order) + [filename]
      ensures HasPreviousSpeech(filename)
      ensures forall f :: f != filename ==> HasPreviousSpeech(f) == old(HasPreviousSpeech(f))
    {
      if filename !in previousSpeeches {
        order := order + [filename];
      }
      previousSpeeches := previousSpeeches[filename := transcription];
      if score.Some? && score.value != 0 {
        previousScores := previousScores[filename := score.value];
      }
    }

    /** `get_previous_transcription` (dict.get: None when absent). */
    function GetPreviousTranscription(filename: string): (r: Option<string>)
      reads this
      ensures r.Some? <==> filename in previousSpeeches
      ensures r.Some? ==> r.value == previousSpeeches[filename]
    {
      if filename in previousSpeeches then Some(previousSpeeches[filename]) else None
    }

    /** `get_previous_score` (dict.get: None when absent). */
    function GetPreviousScore(filename: string): (r: Option<int>)
      reads this
      ensures r.Some? <==> filename in previousScores
      ensures r.Some? ==> r.value == previousScores[filename]
    {
      if filename in previousScores then Some(previousScores[filename]) else None
    }

    /** `has_previous_speech`: a transcription is stored for the name. */
    predicate HasPreviousSpeech(filename: string): (b: bool)
      reads this
      ensures b <==> GetPreviousTranscription(filename).Some?
    {
      filename in previousSpeeches
    }

    /** `list_previous_speeches`: the keys in first-insertion order. */
    function ListPreviousSpeeches(): (r: seq<string>)
      reads this
      requires Valid()
      ensures forall f :: f in r <==> HasPreviousSpeech(f)
      ensures forall i, j :: 0 <= i < j < |r| ==> r[i] != r[j]
    {
      order
    }

    /** `get_speech_count`: the number of distinct file names, which is the
        length of the listing. */
    function GetSpeechCount(): (n: nat)
      reads this
      requires Valid()
      ensures n == |ListPreviousSpeeches()|
    {
      DistinctCount(order, previousSpeeches.Keys);
      |previousSpeeches|
    }

    /** `clear_session_data`: both dictionaries emptied. */
    method ClearSessionData()
      requires Valid()
      modifies this
      ensures Valid()
      ensures previousScores == map[] && previousSpeeches == map[]
      ensures GetSpeechCount() == 0
      ensures forall f :: GetPreviousTranscription(f) == None && GetPreviousScore(f) == None
      ensures forall f :: !HasPreviousSpeech(f)
    {
      previousScores := map[];
      previousSpeeches := map[];
      order := [];
    }
  }

  /** A sequence without repetitions has as many elements as the set of them. */
  lemma {:induction false} DistinctCount(s: seq<string>, keys: set<string>)
    requires forall i, j :: 0 <= i < j < |s| ==> s[i] != s[j]
    requires forall f :: f in keys <==> f in s
    ensures |keys| == |s|
  {
    if s != [] {
      var last := s[|s| - 1];
      var init := s[..|s| - 1];
      assert forall f :: f in keys - {last} <==> f in init by {
        forall f ensures f in keys - {last} <==> f in init {
          if f in init {
            var i :| 0 <= i < |init| && init[i] == f;
            assert s[i] == f;
          }
          assert f in s ==> f == last || f in init by {
            if f in s {
              var i :| 0 <= i < |s| && s[i] == f;
              if i < |s| - 1 { assert init[i] == f; }
            }
          }
        }
      }
      DistinctCount(init, keys - {last});
    }
  }

  /** After any sequence of additions since the last clear, the count is the
      number of distinct names added: adding a known name keeps it, a new name
      raises it by one. */
  lemma AddCountsDistinctNames(before: map<string, string>, filename: string, transcription: string)
    ensures |before[filename := transcription]| == if filename in before then |before| else |before| + 1
  {
    if filename in before {
      assert before[filename := transcription].Keys == before.Keys;
    } else {
      assert before[filename := transcription].Keys == before.Keys + {filename};
    }
  }
}
