/** The travel planner agent (`TravelPlannerAgent`): the same streaming chat as the
    beach-party planner, under a fixed system message about trip planning. */
module TravelPlannerAgent {
  import opened ChatModel
  import opened ChatStream

  /** The content of the system message that opens every conversation. */
  const SystemText: string :=
    "\n" +
    "                You are an expert travel assistant specializing in trip planning, destination information, \n" +
    "                and travel recommendations. Your goal is to help users plan enjoyable, safe, and \n" +
    "                realistic trips based on their preferences and constraints.\n" +
    "                \n" +
    "                When providing information:\n" +
    "                - Be specific and practical with your advice\n" +
    "                - Consider seasonality, budget constraints, and travel logistics\n" +
    "                - Highlight cultural experiences and authentic local activities\n" +
    "                - Include practical travel tips relevant to the destination\n" +
    "                - Format information clearly with headings and bullet points when appropriate\n" +
    "                \n" +
    "                For itineraries:\n" +
    "                - Create realistic day-by-day plans that account for travel time between attractions\n" +
    "                - Balance popular tourist sites with off-the-beaten-path experiences\n" +
    "                - Include approximate timing and practical logistics\n" +
    "                - Suggest meal options highlighting local cuisine\n" +
    "                - Consider weather, local events, and opening hours in your planning\n" +
    "                \n" +
    "                Always maintain a helpful, enthusiastic but realistic tone and acknowledge \n" +
    "                any limitations in your knowledge when appropriate.\n" +
    "                "

  /** `TravelPlannerAgent.stream(query)`. `model` stands for `self.model.stream`: it maps the
      message list it is given to the transcript the backend produces. `sent` is
      the message list the backend was called with. */
  method Stream(query: string, model: seq<Message> -> Transcript) returns (sent: seq<Message>, events: seq<StreamEvent>)
    ensures sent == [SystemMessage(SystemText), HumanMessage(query)]
    ensures events == Events(model(sent))
    ensures WellTerminated(events)
  {
    var messages := [SystemMessage(SystemText)];
    messages := messages + [HumanMessage(query)];
    sent := messages;
    var t := model(messages);
    events := [];
    var i := 0;
    while i < |t.chunks|
      invariant 0 <= i <= |t.chunks|
      invariant events == Partials(t.chunks[..i])
    {
      var chunk := t.chunks[i];
      if chunk.Chunk? && Truthy(chunk.content) {
        events := events + [StreamEvent(chunk.content, false)];
      }
      assert t.chunks[..i + 1][..i] == t.chunks[..i];
      i := i + 1;
    }
    assert t.chunks[..i] == t.chunks;
    if t.raises {
      events := events + [StreamEvent(Text(Apology), true)];
    } else {
      events := events + [StreamEvent(Text(""), true)];
    }
    EventsShape(t);
  }
}
