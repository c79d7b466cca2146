/** The beach-party planner agent (`PlannerAgent`): a chat model asked, under a fixed
    system message, to help plan a beach party, with its reply streamed back chunk by chunk. */
module PlannerAgent {
  import opened ChatModel
  import opened ChatStream

  /** The content of the system message that opens every conversation. */
  const SystemText: string :=
    "\n" +
    "あなたは、ビーチパーティーの計画を支援する専門家です。ユーザーが楽しく、現実的なビーチパーティーを計画できるように、以下の点に注意して回答してください。\n" +
    "- ビーチの選択、アクティビティ、食事、飲み物、装飾、音楽など、パーティーのすべての側面を考慮してください。\n" +
    "- ユーザーの予算、参加者の好み、天候、季節など、現実的な制約を考慮してください。\n" +
    "- 地元の文化や習慣を尊重し、パーティーが楽しく、かつ安全であるように配慮してください。\n" +
    "- ユーザーがパーティーを計画する際に役立つ具体的なアドバイスや提案を提供してください。\n" +
    "                "

  /** `PlannerAgent.stream(query)`. `model` stands for `self.model.stream`: it maps the
      message list it is given to the transcript the backend produces. `sent` is
      the message list the backend was called with. */
  method Stream(query: string, model: seq<Message> -> Transcript) returns (sent: seq<Message>, events: seq<StreamEvent>)
    ensures sent == [SystemMessage(SystemText), HumanMessage(query)]
    ensures events == Events(model(sent))
    ensures WellTerminated(events)
  {
    var messages := [SystemMessage(SystemText)];
    messages := messages + [HumanMessage(query)];
    sent := messages;
    var t := model(messages);
    events := [];
    var i := 0;
    while i < |t.chunks|
      invariant 0 <= i <= |t.chunks|
      invariant events == Partials(t.chunks[..i])
    {
      var chunk := t.chunks[i];
      if chunk.Chunk? && Truthy(chunk.content) {
        events := events + [StreamEvent(chunk.content, false)];
      }
      assert t.chunks[..i + 1][..i] == t.chunks[..i];
      i := i + 1;
    }
    assert t.chunks[..i] == t.chunks;
    if t.raises {
      events := events + [StreamEvent(Text(Apology), true)];
    } else {
      events := events + [StreamEvent(Text(""), true)];
    }
    EventsShape(t);
  }
}
