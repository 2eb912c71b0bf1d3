/** The chat-completion facade: a role-tagged transcript that every turn sends
    in full to the inference endpoint, with a blocking and a streaming turn.

    The endpoint is an input: a `Call` carrying the first choice's content for
    a blocking turn, and the list of chunks the stream delivers for a streaming
    turn. */
module ChatService {
  import opened Wrappers

  datatype Role = System | User | Assistant

  datatype ChatMessage = ChatMessage(role: Role, content: string)

  /** System prompt of a freshly constructed service. */
  const InitialSystemPrompt := "你是一个智能助手，可以帮助用户回答问题。"
  /** System prompt after `clearHistory`: a shorter text than the initial one. */
  const ClearedSystemPrompt := "你是一个智能助手。"
  /** Reply of a blocking turn whose request throws. */
  const FallbackReply := "抱歉，我遇到了一些问题，请稍后再试。"

  /** The invariant every reachable transcript keeps: it opens with the one
      system message, holds no other, and each assistant entry directly follows
      a user entry. */
  predicate WellFormed(h: seq<ChatMessage>) {
    && |h| >= 1
    && h[0].role == System
    && (forall i :: 1 <= i < |h| ==> h[i].role != System)
    && (forall i :: 1 <= i < |h| && h[i].role == Assistant ==> h[i - 1].role == User)
  }

  /** The transcript of a freshly constructed service. */
  function NewHistory(): (h: seq<ChatMessage>)
    ensures WellFormed(h) && |h| == 1
  {
    [ChatMessage(System, InitialSystemPrompt)]
  }

  /** `clearHistory`: whatever the transcript held, it becomes one system message. */
  function ClearHistory(h: seq<ChatMessage>): (r: seq<ChatMessage>)
    ensures WellFormed(r) && |r| == 1
  {
    [ChatMessage(System, ClearedSystemPrompt)]
  }

  /** Clearing forgets everything: the result does not depend on the old
      transcript, so clearing twice is clearing once. */
  lemma ClearHistoryForgets(h1: seq<ChatMessage>, h2: seq<ChatMessage>)
    ensures ClearHistory(h1) == ClearHistory(h2)
    ensures ClearHistory(ClearHistory(h1)) == ClearHistory(h1)
  {
  }

  /** Appending a user message keeps the invariant. */
  lemma UserAppendWellFormed(h: seq<ChatMessage>, userMessage: string)
    ensures WellFormed(h) ==> WellFormed(h + [ChatMessage(User, userMessage)])
  {
  }

  /** Appending an assistant message right after a user message keeps the invariant. */
  lemma AssistantAppendWellFormed(h: seq<ChatMessage>, reply: string)
    ensures WellFormed(h) && h[|h| - 1].role == User ==> WellFormed(h + [ChatMessage(Assistant, reply)])
  {
  }

  /** The result of one blocking turn: the transcript sent, the transcript
      afterwards, and the string returned to the caller. */
  datatype ChatTurn = ChatTurn(request: seq<ChatMessage>, history: seq<ChatMessage>, reply: string)

  /** `chat`: append the user message, send the transcript, and on success append
      and return the assistant's reply; on failure return the fallback and leave
      the user message without a reply. */
  function Chat(h: seq<ChatMessage>, userMessage: string, completion: Call<string>): (t: ChatTurn)
    ensures |t.request| == |h| + 1
    ensures t.request[..|h|] == h && t.request[|h|] == ChatMessage(User, userMessage)
    ensures completion.Returned? ==>
              t.history == t.request + [ChatMessage(Assistant, completion.value)] &&
              t.reply == completion.value
    ensures completion.Threw? ==> t.history == t.request && t.reply == FallbackReply
    ensures WellFormed(h) ==> WellFormed(t.history)
  {
    var request := h + [ChatMessage(User, userMessage)];
    assert request[..|h|] == h;
    match completion
    case Returned(reply) =>
      UserAppendWellFormed(h, userMessage);
      AssistantAppendWellFormed(request, reply);
      ChatTurn(request, request + [ChatMessage(Assistant, reply)], reply)
    case Threw =>
      UserAppendWellFormed(h, userMessage);
      ChatTurn(request, request, FallbackReply)
  }

  /** Two turns on a fresh service: the second request carries the system
      message, the first exchange and the new user message, in that order. */
  lemma TwoTurnsTranscript(m1: string, a1: string, m2: string, c2: Call<string>)
    ensures
      var t1 := Chat(NewHistory(), m1, Returned(a1));
      Chat(t1.history, m2, c2).request ==
        [ ChatMessage(System, InitialSystemPrompt), ChatMessage(User, m1),
          ChatMessage(Assistant, a1), ChatMessage(User, m2) ]
  {
  }

  /** After a failed turn the next request holds two user messages in a row: the
      unanswered one stays in the transcript. */
  lemma FailedTurnLeavesUnansweredMessage(h: seq<ChatMessage>, m1: string, m2: string, c2: Call<string>)
    ensures
      var r := Chat(Chat(h, m1, Threw).history, m2, c2).request;
      |r| == |h| + 2 && r[|h|] == ChatMessage(User, m1) && r[|h| + 1] == ChatMessage(User, m2)
  {
  }

  /** A turn right after clearing sends exactly the system message and the user message. */
  lemma ClearThenChatSendsTwo(h: seq<ChatMessage>, m: string, c: Call<string>)
    ensures Chat(ClearHistory(h), m, c).request ==
              [ChatMessage(System, ClearedSystemPrompt), ChatMessage(User, m)]
  {
  }

  // ---------------------------------------------------------------------------
  // Streaming

  /** One streamed chunk: its choices may be null or empty, the first choice's
      delta may be null, and the delta's content may be null. */
  datatype Delta = Delta(content: Option<string>)
  datatype StreamChoice = StreamChoice(delta: Option<Delta>)
  datatype Chunk = Chunk(choices: Option<seq<StreamChoice>>)

  /** What the remote stream does: the chunks it delivers, and whether it then
      throws instead of finishing. A request that fails outright is a stream that
      delivers no chunk and throws. */
  datatype Stream = Stream(chunks: seq<Chunk>, fails: bool)

  /** Calls made on the caller's callback, in order. */
  datatype Event = OnChunk(chunk: string) | OnComplete(fullResponse: string) | OnError

  /** The text a chunk carries, if any: the first choice's delta content. A
      chunk carries text exactly when its choices are non-null and non-empty, and
      the first choice has a non-null delta with non-null content. */
  function ContentOf(c: Chunk): (o: Option<string>)
    ensures o.Some? <==>
              && c.choices.Some? && |c.choices.value| > 0
              && c.choices.value[0].delta.Some?
              && c.choices.value[0].delta.value.content.Some?
    ensures o.Some? ==> o.value == c.choices.value[0].delta.value.content.value
  {
    match c.choices
    case None => None
    case Some(choices) =>
      if |choices| == 0 then None
      else
        match choices[0].delta
        case None => None
        case Some(d) => d.content
  }

  /** The delta texts of a chunk list, in order, skipping chunks without
      content: there is one delta per chunk exactly when every chunk carries
      content, and none when no chunk does. */
  function Deltas(chunks: seq<Chunk>): (ds: seq<string>)
    ensures |ds| <= |chunks|
    ensures |ds| == |chunks| <==> forall i :: 0 <= i < |chunks| ==> ContentOf(chunks[i]).Some?
    ensures (forall i :: 0 <= i < |chunks| ==> ContentOf(chunks[i]).None?) ==> ds == []
    ensures |chunks| > 0 && ContentOf(chunks[0]).Some? ==> |ds| > 0 && ds[0] == ContentOf(chunks[0]).value
  {
    if |chunks| == 0 then []
    else
      (match ContentOf(chunks[0]) case Some(t) => [t] case None => [])
      + Deltas(chunks[1..])
  }

  /** Concatenation of a list of strings. */
  function Concat(parts: seq<string>): string {
    if |parts| == 0 then "" else parts[0] + Concat(parts[1..])
  }

  /** The arguments of the `onChunk` events, in order. */
  function ChunkTexts(events: seq<Event>): seq<string> {
    if |events| == 0 then []
    else
      (match events[0] case OnChunk(t) => [t] case _ => [])
      + ChunkTexts(events[1..])
  }

  /** One `onChunk` event per text. */
  function ChunkEvents(parts: seq<string>): (events: seq<Event>)
    ensures |events| == |parts|
    ensures forall i :: 0 <= i < |parts| ==> events[i] == OnChunk(parts[i])
  {
    seq(|parts|, i requires 0 <= i < |parts| => OnChunk(parts[i]))
  }

  lemma {:induction false} DeltasAppend(a: seq<Chunk>, b: seq<Chunk>)
    ensures Deltas(a + b) == Deltas(a) + Deltas(b)
  {
    if |a| > 0 {
      assert (a + b)[1..] == a[1..] + b;
      DeltasAppend(a[1..], b);
    } else {
      assert a + b == b;
    }
  }

  lemma {:induction false} ConcatAppend(a: seq<string>, b: seq<string>)
    ensures Concat(a + b) == Concat(a) + Concat(b)
  {
    if |a| > 0 {
      assert (a + b)[1..] == a[1..] + b;
      ConcatAppend(a[1..], b);
    } else {
      assert a + b == b;
    }
  }

  /** The deltas of the first i+1 chunks extend those of the first i by chunk i's content. */
  lemma DeltasStep(chunks: seq<Chunk>, i: nat)
    requires i < |chunks|
    ensures ContentOf(chunks[i]).Some? ==>
              Deltas(chunks[..i + 1]) == Deltas(chunks[..i]) + [ContentOf(chunks[i]).value]
    ensures ContentOf(chunks[i]).None? ==> Deltas(chunks[..i + 1]) == Deltas(chunks[..i])
  {
    assert chunks[..i + 1] == chunks[..i] + [chunks[i]];
    DeltasAppend(chunks[..i], [chunks[i]]);
    assert [chunks[i]][1..] == [];
  }

  lemma ConcatSnoc(parts: seq<string>, last: string)
    ensures Concat(parts + [last]) == Concat(parts) + last
  {
    ConcatAppend(parts, [last]);
    assert [last][1..] == [];
  }

  /** The `onChunk` arguments of a run of chunk events are the texts themselves,
      and a trailing terminal event adds none. */
  lemma {:induction false} ChunkTextsOfChunkEvents(parts: seq<string>, last: Event)
    requires !last.OnChunk?
    ensures ChunkTexts(ChunkEvents(parts) + [last]) == parts
  {
    if |parts| == 0 {
      assert ChunkEvents(parts) + [last] == [last];
      assert [last][1..] == [];
    } else {
      assert (ChunkEvents(parts) + [last])[1..] == ChunkEvents(parts[1..]) + [last];
      ChunkTextsOfChunkEvents(parts[1..], last);
    }
  }

  /** The result of one streaming turn. */
  datatype StreamTurn = StreamTurn(request: seq<ChatMessage>, history: seq<ChatMessage>, events: seq<Event>)

  /** `chatStream`: append the user message, then for every chunk that carries
      content append it to the full response and report it through `onChunk`.
      When the stream ends normally the full response is appended to the
      transcript and reported through `onComplete`; when it throws, `onError` is
      called and the transcript keeps the user message without a reply. */
  method ChatStream(h: seq<ChatMessage>, userMessage: string, stream: Stream) returns (t: StreamTurn)
    ensures t.request == h + [ChatMessage(User, userMessage)]
    ensures |t.events| == |Deltas(stream.chunks)| + 1
    ensures t.events[..|t.events| - 1] == ChunkEvents(Deltas(stream.chunks))
    ensures ChunkTexts(t.events) == Deltas(stream.chunks)
    ensures !stream.fails ==>
              var full := Concat(ChunkTexts(t.events));
              t.events[|t.events| - 1] == OnComplete(full) &&
              t.history == t.request + [ChatMessage(Assistant, full)]
    ensures stream.fails ==> t.events[|t.events| - 1] == OnError && t.history == t.request
    ensures WellFormed(h) ==> WellFormed(t.history)
  {
    var request := h + [ChatMessage(User, userMessage)];
    var chunks := stream.chunks;
    var fullResponse := "";
    var events: seq<Event> := [];
    for i := 0 to |chunks|
      invariant events == ChunkEvents(Deltas(chunks[..i]))
      invariant fullResponse == Concat(Deltas(chunks[..i]))
    {
      DeltasStep(chunks, i);
      var content := ContentOf(chunks[i]);
      if content.Some? {
        ConcatSnoc(Deltas(chunks[..i]), content.value);
        fullResponse := fullResponse + content.value;
        events := events + [OnChunk(content.value)];
      } else {
        assert Deltas(chunks[..i + 1]) == Deltas(chunks[..i]);
      }
    }
    assert chunks[..|chunks|] == chunks;
    var last := if stream.fails then OnError else OnComplete(fullResponse);
    ChunkTextsOfChunkEvents(Deltas(chunks), last);
    UserAppendWellFormed(h, userMessage);
    if stream.fails {
      t := StreamTurn(request, request, events + [last]);
    } else {
      AssistantAppendWellFormed(request, fullResponse);
      t := StreamTurn(request, request + [ChatMessage(Assistant, fullResponse)], events + [last]);
    }
  }
}
