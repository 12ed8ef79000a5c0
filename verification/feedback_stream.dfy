/** `GET /api/stream-feedback/<session_id>/<filename>`: look the recording
    up, build the prompt, relay the chat model's text deltas as chunk events,
    close with a completion event, then store the joined text as the
    recording's feedback. The chat service is a parameter: for a prompt it
    gives the deltas it streams (a delta without content is `None`) and,
    when it raises part-way, the exception text. */
module FeedbackStream {
  import opened Base
  import opened SessionStore
  import opened FeedbackPrompt

  /** One server-sent event, before JSON encoding and `data:` framing. */
  datatype Event =
    | Chunk(content: string)
    | Complete(totalChunks: nat)
    | StreamError(message: string)

  /** What the chat service does for one prompt. */
  datatype Upstream = Upstream(deltas: seq<Option<string>>, failure: Option<string>)

  /** One chunk event per delta that carries content, in order. */
  function ChunkEvents(deltas: seq<Option<string>>): seq<Event> {
    if deltas == [] then []
    else
      var last := deltas[|deltas| - 1];
      ChunkEvents(deltas[..|deltas| - 1]) + (if last.Some? then [Chunk(last.value)] else [])
  }

  /** The text the deltas add up to. */
  function Joined(deltas: seq<Option<string>>): string {
    if deltas == [] then ""
    else
      var last := deltas[|deltas| - 1];
      Joined(deltas[..|deltas| - 1]) + (if last.Some? then last.value else "")
  }

  /** The number of deltas that carry content. */
  function ContentCount(deltas: seq<Option<string>>): nat {
    if deltas == [] then 0
    else ContentCount(deltas[..|deltas| - 1]) + (if deltas[|deltas| - 1].Some? then 1 else 0)
  }

  /** The text of a run of events, chunk by chunk. */
  function Contents(events: seq<Event>): string {
    if events == [] then ""
    else
      var last := events[|events| - 1];
      Contents(events[..|events| - 1]) + (if last.Chunk? then last.content else "")
  }

  lemma {:induction false} ContentsAppend(a: seq<Event>, b: seq<Event>)
    ensures Contents(a + b) == Contents(a) + Contents(b)
    decreases |b|
  {
    if b == [] {
      assert a + b == a;
    } else {
      assert (a + b)[..|a + b| - 1] == a + b[..|b| - 1];
      ContentsAppend(a, b[..|b| - 1]);
    }
  }

  /** The relayed chunks are all chunk events, there is one per delta with
      content, and their texts concatenate to the joined feedback. */
  lemma {:induction false} ChunkEventsFaithful(deltas: seq<Option<string>>)
    ensures forall i :: 0 <= i < |ChunkEvents(deltas)| ==> ChunkEvents(deltas)[i].Chunk?
    ensures |ChunkEvents(deltas)| == ContentCount(deltas)
    ensures Contents(ChunkEvents(deltas)) == Joined(deltas)
  {
    if deltas != [] {
      var init := deltas[..|deltas| - 1];
      var last := deltas[|deltas| - 1];
      ChunkEventsFaithful(init);
      var tail := if last.Some? then [Chunk(last.value)] else [];
      ContentsAppend(ChunkEvents(init), tail);
      if last.Some? {
        assert tail[..0] == [];
      }
    }
  }

  /** The events of one stream for a recording that exists: the chunks, then
      either the completion count or the error text. */
  function StreamEvents(up: Upstream): seq<Event> {
    ChunkEvents(up.deltas)
    + (if up.failure.Some? then [StreamError(up.failure.value)] else [Complete(ContentCount(up.deltas))])
  }

  /** Every stream ends with exactly one closing event, and it is the only
      event that is not a chunk. */
  lemma StreamEndsOnce(up: Upstream)
    ensures |StreamEvents(up)| == ContentCount(up.deltas) + 1
    ensures var e := StreamEvents(up); !e[|e| - 1].Chunk?
    ensures var e := StreamEvents(up); forall i :: 0 <= i < |e| - 1 ==> e[i].Chunk?
    ensures var e := StreamEvents(up);
            up.failure.None? ==> e[|e| - 1] == Complete(|e| - 1)
  {
    ChunkEventsFaithful(up.deltas);
  }

  /** The prompt the stream sends for a stored recording: the size of the
      stored audio gives the duration, and it is never a repeat. */
  function PromptFor(rec: Recording, language: string): Prompt {
    BuildFeedbackPrompt(rec.topic, rec.speechType, rec.transcription, |rec.audioData|, language, false, None)
  }

  /** `stream_feedback`: the recording is looked up once; a missing one
      gives a single error event and no change. The deltas are relayed one
      by one; after a clean finish the joined text becomes the feedback of
      the first record with the name, while a failure part-way leaves the
      store as it was. `language` is the query parameter, "en" when absent. */
  method StreamFeedback(store: Store, sid: string, filename: string, language: string,
                        chat: Prompt -> Upstream)
    returns (events: seq<Event>)
    requires store.Valid()
    modifies store
    ensures store.Valid()
    ensures store.counters == old(store.counters)
    ensures old(store.GetSessionRecordingData(sid, filename)).None? ==>
              events == [StreamError("Recording not found")] && store.sessions == old(store.sessions)
    ensures old(store.GetSessionRecordingData(sid, filename)).Some? ==>
              var up := chat(PromptFor(old(store.GetSessionRecordingData(sid, filename)).value, language));
              && events == StreamEvents(up)
              && (up.failure.Some? ==> store.sessions == old(store.sessions))
              && (up.failure.None? ==>
                    store.sessions == old(store.sessions)[sid := WithFeedback(old(store.sessions)[sid], filename,
                                                                              Joined(up.deltas))])
  {
    var recording := store.GetSessionRecordingData(sid, filename);
    if recording.None? {
      return [StreamError("Recording not found")];
    }
    var up := chat(PromptFor(recording.value, language));
    var fullFeedback := "";
    var chunkCount := 0;
    events := [];
    var i := 0;
    while i < |up.deltas|
      invariant 0 <= i <= |up.deltas|
      invariant events == ChunkEvents(up.deltas[..i])
      invariant fullFeedback == Joined(up.deltas[..i])
      invariant chunkCount == ContentCount(up.deltas[..i])
    {
      assert up.deltas[..i + 1][..i] == up.deltas[..i];
      if up.deltas[i].Some? {
        var content := up.deltas[i].value;
        fullFeedback := fullFeedback + content;
        chunkCount := chunkCount + 1;
        events := events + [Chunk(content)];
      }
      i := i + 1;
    }
    assert up.deltas[..i] == up.deltas;
    if up.failure.Some? {
      events := events + [StreamError(up.failure.value)];
      return;
    }
    events := events + [Complete(chunkCount)];
    store.SetFirstFeedback(sid, filename, fullFeedback);
  }
}
