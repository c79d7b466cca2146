/** The language-model backend as the agents see it: what a single-shot reply,
    a streamed chunk and a chat message look like. The backend itself is not
    modelled; an agent receives it as a scripted value (see Transcript and Reply). */
module ChatModel {

  /** The `content` of a LangChain message: a string, or a list of content parts. */
  datatype Content = Text(text: string) | Parts(parts: seq<string>)

  /** Python truthiness of a content value: a non-empty string or a non-empty list. */
  predicate Truthy(c: Content) {
    match c
    case Text(s) => s != ""
    case Parts(ps) => ps != []
  }

  /** One object delivered by a streamed call. `Bare` is an object that has no
      `content` attribute at all. */
  datatype Chunk = Chunk(content: Content) | Bare

  /** The guard `hasattr(chunk, 'content') and chunk.content`. */
  predicate HasText(ch: Chunk) {
    ch.Chunk? && Truthy(ch.content)
  }

  /** Outcome of a single-shot call: the reply message's content, or an exception. */
  datatype Reply = Replied(content: Content) | Raised

  /** A scripted streamed call: the chunks it delivers, in order, and then either
      normal exhaustion (`raises == false`) or an exception (`raises == true`).
      A backend that raises after N chunks is `Transcript(first N chunks, true)`;
      one that raises before delivering anything is `Transcript([], true)`. */
  datatype Transcript = Transcript(chunks: seq<Chunk>, raises: bool)

  /** The LangChain chat messages the planner agents send. */
  datatype Message = SystemMessage(content: string) | HumanMessage(content: string)

  /** Reference definition of what a streaming agent passes on: the contents of
      the chunks that pass `HasText`, in arrival order. */
  function NonEmptyContents(chunks: seq<Chunk>): (r: seq<Content>)
    ensures |r| <= |chunks|
    ensures forall i :: 0 <= i < |r| ==> Truthy(r[i])
    decreases |chunks|
  {
    if chunks == [] then []
    else (if HasText(chunks[0]) then [chunks[0].content] else []) + NonEmptyContents(chunks[1..])
  }

  /** Filtering distributes over concatenation: what arrives later never changes
      what was kept from what arrived earlier. */
  lemma {:induction false} NonEmptyContentsAppend(a: seq<Chunk>, b: seq<Chunk>)
    ensures NonEmptyContents(a + b) == NonEmptyContents(a) + NonEmptyContents(b)
    decreases |a|
  {
    if a == [] {
      assert a + b == b;
    } else {
      assert (a + b)[0] == a[0];
      assert (a + b)[1..] == a[1..] + b;
      NonEmptyContentsAppend(a[1..], b);
    }
  }

  /** What is passed on for a prefix of the chunks is a prefix of what is passed
      on for all of them. */
  lemma NonEmptyContentsPrefix(chunks: seq<Chunk>, n: nat)
    requires n <= |chunks|
    ensures |NonEmptyContents(chunks[..n])| <= |NonEmptyContents(chunks)|
    ensures NonEmptyContents(chunks[..n]) == NonEmptyContents(chunks)[..|NonEmptyContents(chunks[..n])|]
  {
    assert chunks == chunks[..n] + chunks[n..];
    NonEmptyContentsAppend(chunks[..n], chunks[n..]);
  }

  /** Nothing is passed on exactly when no chunk carries truthy content. */
  lemma {:induction false} NonEmptyContentsEmpty(chunks: seq<Chunk>)
    ensures NonEmptyContents(chunks) == [] <==> forall i :: 0 <= i < |chunks| ==> !HasText(chunks[i])
    decreases |chunks|
  {
    if chunks != [] {
      NonEmptyContentsEmpty(chunks[1..]);
      if !HasText(chunks[0]) {
        forall i | 1 <= i < |chunks| ensures HasText(chunks[i]) == HasText(chunks[1..][i - 1]) { }
      }
    }
  }

  /** Both directions of membership: every truthy chunk's content is passed on,
      and everything passed on is the content of some chunk that was received. */
  lemma {:induction false} NonEmptyContentsMembers(chunks: seq<Chunk>)
    ensures forall i :: 0 <= i < |chunks| && HasText(chunks[i]) ==> chunks[i].content in NonEmptyContents(chunks)
    ensures forall c :: c in NonEmptyContents(chunks) ==> Chunk(c) in chunks
    decreases |chunks|
  {
    if chunks != [] {
      var rest := chunks[1..];
      NonEmptyContentsMembers(rest);
      forall i | 1 <= i < |chunks| && HasText(chunks[i])
        ensures chunks[i].content in NonEmptyContents(chunks)
      {
        assert chunks[i] == rest[i - 1];
      }
      forall c | c in NonEmptyContents(chunks)
        ensures Chunk(c) in chunks
      {
        if c !in NonEmptyContents(rest) {
          assert chunks[0] == Chunk(c);
        } else {
          var j :| 0 <= j < |rest| && rest[j] == Chunk(c);
          assert chunks[j + 1] == Chunk(c);
        }
      }
    }
  }
}
