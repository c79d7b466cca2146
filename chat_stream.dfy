/** The event stream shared by `PlannerAgent.stream` and `TravelPlannerAgent.stream`:
    a `{'content': ..., 'done': ...}` record per non-empty chunk, then exactly one
    record with `done` set. This module is the specification both agents' loops are
    proved against. */
module ChatStream {
  import opened ChatModel

  /** The record `{'content': content, 'done': done}`. */
  datatype StreamEvent = StreamEvent(content: Content, done: bool)

  /** The content of the event yielded when anything inside the `try` raises. */
  const Apology: string := "Sorry, an error occurred while processing your request."

  /** The events the chunk loop has yielded after consuming `chunks`. The beach
      agent's loop yields a different record and has its own `Partials`; both are
      proved against the reference filter `NonEmptyContents`. */
  function Partials(chunks: seq<Chunk>): seq<StreamEvent>
    decreases |chunks|
  {
    if chunks == [] then []
    else
      var last := chunks[|chunks| - 1];
      Partials(chunks[..|chunks| - 1]) + (if HasText(last) then [StreamEvent(last.content, false)] else [])
  }

  /** The one event that closes the stream. */
  function Closing(t: Transcript): StreamEvent {
    if t.raises then StreamEvent(Text(Apology), true) else StreamEvent(Text(""), true)
  }

  /** Everything the generator yields for the backend's transcript `t`. */
  function Events(t: Transcript): seq<StreamEvent> {
    Partials(t.chunks) + [Closing(t)]
  }

  /** Zero or more events with `done == False`, then exactly one with `done == True`. */
  predicate WellTerminated(es: seq<StreamEvent>) {
    |es| >= 1 && es[|es| - 1].done && forall i :: 0 <= i < |es| - 1 ==> !es[i].done
  }

  /** The partial events are exactly the non-empty chunk contents, in arrival
      order, each with `done == False`. */
  lemma {:induction false} PartialsAreNonEmptyContents(chunks: seq<Chunk>)
    ensures |Partials(chunks)| == |NonEmptyContents(chunks)|
    ensures forall i :: 0 <= i < |Partials(chunks)| ==>
              Partials(chunks)[i] == StreamEvent(NonEmptyContents(chunks)[i], false)
    decreases |chunks|
  {
    if chunks != [] {
      var init, last := chunks[..|chunks| - 1], chunks[|chunks| - 1];
      PartialsAreNonEmptyContents(init);
      assert chunks == init + [last];
      NonEmptyContentsAppend(init, [last]);
      assert [last][1..] == [];
    }
  }

  /** The whole shape of the stream: the partials stand for the non-empty chunks,
      and the last event is `{'content': '', 'done': True}` after normal
      exhaustion and the apology after an exception; it is the only `done` event.
      If the backend raises before any chunk, the apology is the only event. */
  lemma EventsShape(t: Transcript)
    ensures WellTerminated(Events(t))
    ensures |Events(t)| == |NonEmptyContents(t.chunks)| + 1
    ensures forall i :: 0 <= i < |Events(t)| - 1 ==> Events(t)[i] == StreamEvent(NonEmptyContents(t.chunks)[i], false)
    ensures Events(t)[|Events(t)| - 1] ==
              if t.raises then StreamEvent(Text(Apology), true) else StreamEvent(Text(""), true)
    ensures t.chunks == [] && t.raises ==> Events(t) == [StreamEvent(Text(Apology), true)]
  {
    PartialsAreNonEmptyContents(t.chunks);
  }

  /** A backend that raises after delivering the first `n` chunks of `chunks`
      yields exactly what a run over all of `chunks` had yielded at that point,
      and then the apology. */
  lemma FailureKeepsEmitted(chunks: seq<Chunk>, n: nat, raises: bool)
    requires n <= |chunks|
    ensures var k := |Partials(chunks[..n])|;
            k < |Events(Transcript(chunks, raises))| &&
            Events(Transcript(chunks[..n], true)) ==
              Events(Transcript(chunks, raises))[..k] + [StreamEvent(Text(Apology), true)]
  {
    PartialsAreNonEmptyContents(chunks[..n]);
    PartialsAreNonEmptyContents(chunks);
    NonEmptyContentsPrefix(chunks, n);
    var k := |Partials(chunks[..n])|;
    assert Partials(chunks[..n]) == Partials(chunks)[..k];
    assert Events(Transcript(chunks, raises))[..k] == Partials(chunks)[..k];
  }
}
