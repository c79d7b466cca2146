/** The beach information agent (`BeachAgent`): it asks the Gemini model for web
    search results about the query, builds an answer prompt from them, and answers
    either in one call (`ainvoke`) or streamed (`stream`). Every backend failure
    is turned into a terminal event; no exception reaches the caller. */
module BeachAgent {
  import opened ChatModel

  /** `BeachAgent.SYSTEM_INSTRUCTION`. */
  const SystemInstruction: string :=
    "You are a specialized assistant for beach information. " +
    "Use the provided web search results to respond accurately."

  /** The content `ainvoke` reports when the answering call raises. */
  const FailedMessage: string := "Failed to retrieve information."

  /** The content `stream` reports when the streamed call raises. */
  const StreamingErrorMessage: string := "Streaming error occurred."

  /** The dictionary `{"is_task_complete", "require_user_input", "content"}`
      that `ainvoke` returns and `stream` yields. */
  datatype AgentEvent = AgentEvent(isTaskComplete: bool, requireUserInput: bool, content: Content)

  /** The Gemini model as the agent uses it: `ainvoke` on a prompt gives one reply
      or raises, `astream` on a prompt gives a transcript of chunks. */
  datatype Model = Model(ainvoke: string -> Reply, astream: string -> Transcript)

  /** The text of the search prompt before and after the query. */
  const SearchIntro: string :=
    "\n" +
    "あなたは、優秀なビーチ情報アシスタントです。以下のクエリに基づいて、インターネットを検索し、関連する情報を収集してください。\n" +
    "クエリ: "
  const SearchOutro: string :=
    "\n" +
    "あなたの回答は、ビーチに関する情報を提供することに焦点を当ててください。\n" +
    "あまり熟考せず、迅速に検索結果をまとめてください。\n" +
    "                "

  /** The prompt `_search_web` sends: the query embedded, unchanged, in fixed text. */
  function SearchPrompt(query: string): (p: string)
    ensures |p| == |SearchIntro| + |query| + |SearchOutro|
    ensures p[..|SearchIntro|] == SearchIntro
    ensures p[|SearchIntro|..|SearchIntro| + |query|] == query
    ensures p[|SearchIntro| + |query|..] == SearchOutro
  {
    SearchIntro + query + SearchOutro
  }

  /** `_search_web(query)`: the search reply's text when it is a string, and `""`
      when it is not a string or when the call raises. It never fails. */
  function SearchWeb(query: string, model: Model): (r: string)
    ensures var reply := model.ainvoke(SearchPrompt(query));
            reply.Replied? && reply.content.Text? ==> r == reply.content.text
    ensures var reply := model.ainvoke(SearchPrompt(query));
            reply.Raised? || (reply.Replied? && reply.content.Parts?) ==> r == ""
  {
    match model.ainvoke(SearchPrompt(query))
    case Replied(c) =>
      if Truthy(c) && c.Text? then c.text else ""
    case Raised => ""
  }

  /** The fixed text before the web results, and between them and the query. */
  const AnswerHead: string := SystemInstruction + "\n" + "Web results:\n"
  const AnswerTail: string := "\n" + "Answer the question: "

  /** The answer prompt that `ainvoke` and `stream` both build: the system
      instruction, the web results and the query, each recoverable from it. */
  function AnswerPrompt(query: string, webResults: string): (p: string)
    ensures |p| == |AnswerHead| + |webResults| + |AnswerTail| + |query|
    ensures p[..|SystemInstruction|] == SystemInstruction
    ensures p[..|AnswerHead|] == AnswerHead
    ensures p[|AnswerHead|..|AnswerHead| + |webResults|] == webResults
    ensures p[|AnswerHead| + |webResults|..|p| - |query|] == AnswerTail
    ensures p[|p| - |query|..] == query
  {
    var p := SystemInstruction + "\n" + "Web results:\n" + webResults + "\n" + "Answer the question: " + query;
    assert p == AnswerHead + webResults + AnswerTail + query;
    assert (AnswerHead + webResults + AnswerTail + query)[..|SystemInstruction|] == SystemInstruction;
    assert (AnswerHead + webResults + AnswerTail + query)[..|AnswerHead|] == AnswerHead;
    assert (AnswerHead + webResults + AnswerTail + query)[|AnswerHead| + |webResults|..|p| - |query|] == AnswerTail;
    p
  }

  /** `ainvoke(query, sessionId)`: always one event, complete and not asking for
      input, carrying the model's reply, or the fixed failure message when the
      answering call raises. */
  function AInvoke(query: string, model: Model): (e: AgentEvent)
    ensures e.isTaskComplete && !e.requireUserInput
    ensures var reply := model.ainvoke(AnswerPrompt(query, SearchWeb(query, model)));
            (reply.Replied? ==> e.content == reply.content) &&
            (reply.Raised? ==> e.content == Text(FailedMessage))
  {
    var prompt := AnswerPrompt(query, SearchWeb(query, model));
    match model.ainvoke(prompt)
    case Replied(c) => AgentEvent(true, false, c)
    case Raised => AgentEvent(true, false, Text(FailedMessage))
  }

  /** Number of leading chunks whose `content` can be read; reading the content
      of the next one (a `Bare` chunk) raises inside the streaming loop. */
  function ReadablePrefix(chunks: seq<Chunk>): (k: nat)
    ensures k <= |chunks|
    ensures forall i :: 0 <= i < k ==> chunks[i].Chunk?
    ensures k < |chunks| ==> chunks[k].Bare?
    decreases |chunks|
  {
    if chunks == [] || chunks[0].Bare? then 0 else 1 + ReadablePrefix(chunks[1..])
  }

  /** The partial events the streaming loop has yielded after consuming `chunks`.
      It has the same shape as `ChatStream.Partials` because the source has two
      separate loops yielding two different records; both are proved against the
      one reference filter `NonEmptyContents`. */
  function Partials(chunks: seq<Chunk>): seq<AgentEvent>
    decreases |chunks|
  {
    if chunks == [] then []
    else
      var last := chunks[|chunks| - 1];
      Partials(chunks[..|chunks| - 1]) + (if HasText(last) then [AgentEvent(false, false, last.content)] else [])
  }

  /** Everything `stream` yields when the streamed call produces `t`. */
  function StreamEvents(t: Transcript): seq<AgentEvent> {
    var k := ReadablePrefix(t.chunks);
    Partials(t.chunks[..k]) +
    [AgentEvent(true, false, Text(if k < |t.chunks| || t.raises then StreamingErrorMessage else ""))]
  }

  /** Zero or more incomplete events, then exactly one complete one; none asks
      for user input. */
  predicate Lifecycle(es: seq<AgentEvent>) {
    |es| >= 1 && es[|es| - 1].isTaskComplete &&
    (forall i :: 0 <= i < |es| - 1 ==> !es[i].isTaskComplete) &&
    (forall i :: 0 <= i < |es| ==> !es[i].requireUserInput)
  }

  /** `stream(query, sessionId)`: searches, builds the same prompt as `AInvoke`,
      and yields the events for the streamed call's transcript. */
  method Stream(query: string, model: Model) returns (events: seq<AgentEvent>)
    ensures events == StreamEvents(model.astream(AnswerPrompt(query, SearchWeb(query, model))))
    ensures Lifecycle(events)
  {
    var webResults := SearchWeb(query, model);
    var prompt := AnswerPrompt(query, webResults);
    var t := model.astream(prompt);
    events := [];
    var i := 0;
    while i < |t.chunks| && t.chunks[i].Chunk?
      invariant 0 <= i <= |t.chunks|
      invariant forall j :: 0 <= j < i ==> t.chunks[j].Chunk?
      invariant events == Partials(t.chunks[..i])
    {
      if Truthy(t.chunks[i].content) {
        events := events + [AgentEvent(false, false, t.chunks[i].content)];
      }
      assert t.chunks[..i + 1][..i] == t.chunks[..i];
      i := i + 1;
    }
    assert i == ReadablePrefix(t.chunks);
    if i < |t.chunks| || t.raises {
      events := events + [AgentEvent(true, false, Text(StreamingErrorMessage))];
    } else {
      events := events + [AgentEvent(true, false, Text(""))];
    }
    StreamShape(t);
  }

  /** The partial events are exactly the non-empty chunk contents, in order,
      none complete and none asking for input. */
  lemma {:induction false} PartialsAreNonEmptyContents(chunks: seq<Chunk>)
    ensures |Partials(chunks)| == |NonEmptyContents(chunks)|
    ensures forall i :: 0 <= i < |Partials(chunks)| ==>
              Partials(chunks)[i] == AgentEvent(false, false, NonEmptyContents(chunks)[i])
    decreases |chunks|
  {
    if chunks != [] {
      var init, last := chunks[..|chunks| - 1], chunks[|chunks| - 1];
      PartialsAreNonEmptyContents(init);
      assert chunks == init + [last];
      NonEmptyContentsAppend(init, [last]);
      assert [last][1..] == [];
    }
  }

  /** The whole shape of a stream: one partial per non-empty chunk read before
      the stream ended, then one complete event, with empty content when the
      transcript was exhausted normally and the streaming error message when
      the call raised or a chunk had no content. */
  lemma StreamShape(t: Transcript)
    ensures Lifecycle(StreamEvents(t))
    ensures var k := ReadablePrefix(t.chunks);
            var es := StreamEvents(t);
            |es| == |NonEmptyContents(t.chunks[..k])| + 1 &&
            (forall i :: 0 <= i < |es| - 1 ==> es[i] == AgentEvent(false, false, NonEmptyContents(t.chunks[..k])[i])) &&
            es[|es| - 1].content == Text(if k < |t.chunks| || t.raises then StreamingErrorMessage else "")
  {
    PartialsAreNonEmptyContents(t.chunks[..ReadablePrefix(t.chunks)]);
  }

  /** Cutting the transcript short never lets a later chunk's missing content
      matter: the readable prefix of a prefix is the shorter of the two. This
      follows from the three clauses of `ReadablePrefix`'s contract, which
      determine its value. */
  lemma ReadablePrefixOfPrefix(chunks: seq<Chunk>, n: nat)
    requires n <= |chunks|
    ensures ReadablePrefix(chunks[..n]) == if n < ReadablePrefix(chunks) then n else ReadablePrefix(chunks)
  {
    var k, m := ReadablePrefix(chunks), ReadablePrefix(chunks[..n]);
    assert forall i :: 0 <= i < m ==> chunks[i] == chunks[..n][i];
    if m < n {
      assert chunks[m] == chunks[..n][m];
    }
  }

  /** A streamed call that raises after delivering the first `n` chunks yields
      exactly the partials that a longer run over the same chunks had yielded at
      that point, and then one streaming-error event. */
  lemma FailureKeepsEmitted(chunks: seq<Chunk>, n: nat, raises: bool)
    requires n <= |chunks|
    ensures var cut := StreamEvents(Transcript(chunks[..n], true));
            var full := StreamEvents(Transcript(chunks, raises));
            |cut| <= |full| &&
            cut[..|cut| - 1] == full[..|cut| - 1] &&
            cut[|cut| - 1] == AgentEvent(true, false, Text(StreamingErrorMessage))
  {
    var k := ReadablePrefix(chunks);
    var m := ReadablePrefix(chunks[..n]);
    ReadablePrefixOfPrefix(chunks, n);
    assert chunks[..n][..m] == chunks[..k][..m];
    PartialsAreNonEmptyContents(chunks[..k][..m]);
    PartialsAreNonEmptyContents(chunks[..k]);
    NonEmptyContentsPrefix(chunks[..k], m);
    assert Partials(chunks[..k][..m]) == Partials(chunks[..k])[..|Partials(chunks[..k][..m])|];
  }
}
