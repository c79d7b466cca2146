# Beach-party agents: per-request event streams

A Dafny model of the request-handling core of three worker agents of the
beach-party multi-agent demo:

- `BeachAgent` searches the web through its Gemini model, builds an answer
  prompt from the search results and the question, and answers in one of two
  ways. `ainvoke` returns one terminal event. `stream` yields one partial event
  per non-empty chunk and then one terminal event.
- `PlannerAgent` and `TravelPlannerAgent` send a fixed system message and the
  user's query to a chat model. They stream its reply back as
  `{'content', 'done'}` records: one `done=False` record per non-empty chunk,
  then exactly one `done=True` record.

Every backend failure is caught inside the agent. It becomes a fixed,
human-readable terminal event, so callers never see an exception.

The language-model backend is an input. A single-shot call is a `Reply`
(`Replied(content)` or `Raised`). A streamed call is a `Transcript`: the
chunks delivered, in order, and whether the backend then raised. A backend
that raises after N chunks is the transcript of those N chunks with
`raises == true`. Each agent receives its backend as a function from what it
sends (a prompt string, or the message list) to what comes back. Because of
that, the prompt and the message list an agent builds are part of what is
proved. Message content follows LangChain: a string, or a list of content
parts (`Content = Text | Parts`). Emptiness is Python truthiness. A chunk
object may also lack a `content` attribute altogether (`Bare`).

Modules:

- `ChatModel` (chat_model.dfy): the backend's data types. It also holds
  `NonEmptyContents`, the reference filter "contents of the chunks that pass
  `hasattr(chunk, 'content') and chunk.content`, in arrival order".
- `ChatStream` (chat_stream.dfy): the `{'content', 'done'}` record and the
  event sequence that the two planner agents' loops are proved against.
- `PlannerAgent` (planner_agent.dfy) and `TravelPlannerAgent`
  (travel_planner_agent.dfy): each holds its system text, which is kept
  verbatim. Each `Stream` is a method. It builds the message list by
  appending, as the source does, then runs the chunk loop.
- `BeachAgent` (beach_agent.dfy): the search, the answer prompt, `AInvoke`
  as a function, and `Stream` as a method with the chunk loop.

Two behaviours of the code worth noting:

- A stream that fails after N chunks yields a partial event only for those
  of the N chunks with non-empty content, so it can yield fewer than N
  partial events before its terminal event.
- `BeachAgent.stream` reads `chunk.content` without checking that the
  attribute exists. A chunk without it raises inside the `try`, so the stream
  ends with "Streaming error occurred." The two planner agents check with
  `hasattr` and skip such a chunk. The model has both behaviours
  (`BeachAgent.ReadablePrefix` versus `ChatModel.HasText`).

## Model

| member | source | states |
|---|---|---|
| `ChatModel.NonEmptyContents` | samples/beach-party-app/planner_agent/agent.py:56-59 | the reference filter keeps at most one content per chunk, and every content it keeps is non-empty |
| `ChatModel.NonEmptyContentsAppend` | samples/beach-party-app/planner_agent/agent.py:56-59 | filtering distributes over concatenation, so chunks that arrive later never change what was kept from earlier ones |
| `ChatModel.NonEmptyContentsPrefix` | samples/beach-party-app/planner_agent/agent.py:56-59 | what is passed on for a prefix of the chunks is a prefix of what is passed on for all of them, so nothing already yielded is taken back |
| `ChatModel.NonEmptyContentsEmpty` | samples/beach-party-app/planner_agent/agent.py:58 | nothing is passed on if and only if no chunk has a `content` attribute with non-empty content |
| `ChatModel.NonEmptyContentsMembers` | samples/beach-party-app/planner_agent/agent.py:56-59 | every chunk with non-empty content has its content passed on, and everything passed on is the content of a received chunk |
| `ChatStream.PartialsAreNonEmptyContents` | samples/beach-party-app/planner_agent/agent.py:56-59 | the `done=False` records the loop yields are exactly the non-empty chunk contents, in arrival order |
| `ChatStream.EventsShape` | samples/beach-party-app/planner_agent/agent.py:56-64 | the output is the partials followed by exactly one `done=True` record: `{'content': '', 'done': True}` on normal exhaustion, the apology on an exception, and the apology alone if the backend fails before any chunk |
| `ChatStream.FailureKeepsEmitted` | samples/beach-party-app/planner_agent/agent.py:62-64 | a backend that raises after N chunks yields exactly what a longer run had yielded by then, followed by one apology record |
| `PlannerAgent.Stream` | samples/beach-party-app/planner_agent/agent.py:35-64 | the backend receives exactly `[SystemMessage(planner text), HumanMessage(query)]`; the yielded records are the `ChatStream` events for its transcript, and exactly one of them, the last, has `done=True` |
| `TravelPlannerAgent.Stream` | samples/python/agents/travel_planner_agent/agent.py:35-79 | the backend receives exactly `[SystemMessage(travel text), HumanMessage(query)]`; the yielded records are the `ChatStream` events for its transcript, and exactly one of them, the last, has `done=True` |
| `BeachAgent.SearchPrompt` | samples/beach-party-app/beach_agent/agent.py:46-53 | the search prompt is the fixed intro text, then the query unchanged, then the fixed closing text |
| `BeachAgent.SearchWeb` | samples/beach-party-app/beach_agent/agent.py:39-72 | a string reply is returned unchanged, and an empty reply stays `""`; a non-string reply or a raised call gives `""`, and no error propagates |
| `BeachAgent.AnswerPrompt` | samples/beach-party-app/beach_agent/agent.py:80-84 | the prompt is, piece by piece, the system instruction followed by `"\nWeb results:\n"`, the web results, `"\nAnswer the question: "` and the query, and nothing else |
| `BeachAgent.AInvoke` | samples/beach-party-app/beach_agent/agent.py:74-98 | the result is one event with `is_task_complete=True` and `require_user_input=False`; its content is the model's reply to the answer prompt, or "Failed to retrieve information." if that call raises |
| `BeachAgent.ReadablePrefix` | samples/beach-party-app/beach_agent/agent.py:112-117 | every chunk before the returned index has a readable `content`, and the chunk at that index, if any, does not |
| `BeachAgent.Stream` | samples/beach-party-app/beach_agent/agent.py:100-130 | the events are those of the streamed call on the same answer prompt that `AInvoke` builds; they follow the task lifecycle (incomplete events, then exactly one complete one, and never `require_user_input`) |
| `BeachAgent.PartialsAreNonEmptyContents` | samples/beach-party-app/beach_agent/agent.py:112-118 | the `is_task_complete=False` events are exactly the non-empty chunk contents, in arrival order |
| `BeachAgent.StreamShape` | samples/beach-party-app/beach_agent/agent.py:112-130 | one partial per non-empty chunk read before the stream ended, then one complete event: content `""` on normal exhaustion, "Streaming error occurred." when the call raised or a chunk had no content |
| `BeachAgent.ReadablePrefixOfPrefix` | samples/beach-party-app/beach_agent/agent.py:112-113 | for a transcript cut after n chunks, the readable prefix is the shorter of n and the full transcript's readable prefix (a consequence of `ReadablePrefix`'s contract) |
| `BeachAgent.FailureKeepsEmitted` | samples/beach-party-app/beach_agent/agent.py:112-130 | a streamed call that raises after N chunks keeps every partial already yielded, exactly as a longer run had them, and ends with one streaming-error event |

## Left out

- Each agent's `__init__` is not modelled: it reads the configuration file and the environment, exits the process when something is missing, and constructs the SDK client. These are file I/O and process control.
- The backends (`ChatGoogleGenerativeAI.ainvoke` and `astream`, `ChatOpenAI.stream`) are foreign SDKs. Each is a function parameter, so two calls with the same prompt get the same reply. A backend that answers the same prompt differently is not modelled.
- Logging and the `print` of errors are side effects only and are not modelled.
- async/await and generator laziness are not modelled. A stream is the complete sequence of events it yields. A consumer that stops reading early is not modelled.
- The `sessionId` argument of `ainvoke` and `stream` is only logged, so the model drops it.
- Exceptions raised inside the `try` blocks by anything other than the backend are not modelled. Building the message list or the event records cannot raise for string inputs.
- The `ResponseFormat` model and `SUPPORTED_CONTENT_TYPES` are not used by the request-handling code.
- The command-line entry points, servers and agent cards (`beach_agent/__main__.py`, `planner_agent/__main__.py`, `main.py`) are not modelled; they are process and transport wiring.
- The executor modules that map these events to protocol task states are not part of this model.
- Tool provisioning from external tool servers, and its local fallback catalog tool, are not part of this model. Neither appears in the agent files modelled here.
