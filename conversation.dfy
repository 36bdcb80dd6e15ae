/** One conversation turn: fill slots from the utterance, rebuild the system
    instruction, send [instruction] + replayed history + [utterance] to the
    model, store the user turn, then store the model's streamed reply. */
module Conversation {
  import opened Wrappers
  import opened Text
  import opened Session
  import opened Context
  import opened Slots

  /** The chat model: the stream of chunk contents (None for a chunk without
      content) it produces for an outbound message sequence. */
  type Model = seq<Msg> -> seq<Option<string>>

  /** The text one chunk contributes. */
  function ChunkText(c: Option<string>): string {
    c.GetOr("")
  }

  /** Everything the stream delivered, in arrival order. */
  function Received(chunks: seq<Option<string>>): string
    decreases |chunks|
  {
    if chunks == [] then "" else Received(chunks[..|chunks| - 1]) + ChunkText(chunks[|chunks| - 1])
  }

  /** A stream split in two delivers the first part's text before the second's. */
  lemma {:induction false} ReceivedAppend(a: seq<Option<string>>, b: seq<Option<string>>)
    ensures Received(a + b) == Received(a) + Received(b)
    decreases |b|
  {
    if b == [] {
      assert a + b == a;
    } else {
      var b' := b[..|b| - 1];
      assert (a + b)[..|a + b| - 1] == a + b';
      ReceivedAppend(a, b');
    }
  }

  /** Accumulates the non-empty chunks and strips surrounding whitespace from
      the result. Skipping empty chunks loses nothing of what was delivered. */
  method StreamResponse(chunks: seq<Option<string>>) returns (reply: string)
    ensures reply == Strip(Received(chunks), IsSpace)
    ensures reply != [] ==> !IsSpace(reply[0]) && !IsSpace(reply[|reply| - 1])
  {
    var fullText := "";
    for i := 0 to |chunks|
      invariant fullText == Received(chunks[..i])
    {
      assert chunks[..i + 1][..i] == chunks[..i];
      var text := chunks[i];
      if text.Some? && text.value != "" {
        fullText := fullText + text.value;
      }
    }
    assert chunks[..|chunks|] == chunks;
    reply := Strip(fullText, IsSpace);
  }

  /** The outbound message sequence: the fresh system instruction first, then
      every stored turn replayed in order, then the new user message. */
  function Outbound(instruction: string, history: seq<Turn>, userMsg: string): (convo: seq<Msg>)
    ensures |convo| == |history| + 2
    ensures convo[0] == System(instruction)
    ensures forall i :: 0 <= i < |history| ==> convo[i + 1] == ToMsg(history[i])
    ensures convo[|history| + 1] == Human(userMsg)
  {
    [System(instruction)] + HistoryMessages(history) + [Human(userMsg)]
  }

  /** The turns a completed exchange adds: the user's, then the assistant's. */
  function Exchange(userMsg: string, reply: string): seq<Turn> {
    [Turn("user", userMsg), Turn("assistant", reply)]
  }

  /** On the following turn the exchange is replayed as a human message followed by an AI message. */
  lemma {:induction false} ExchangeReplay(history: seq<Turn>, userMsg: string, reply: string)
    ensures HistoryMessages(history + Exchange(userMsg, reply))
            == HistoryMessages(history) + [Human(userMsg), AI(reply)]
  {
    var ex := Exchange(userMsg, reply);
    HistoryMessagesAppend(history, ex);
    var replayed := HistoryMessages(ex);
    assert replayed[0] == ToMsg(ex[0]) == Human(userMsg);
    assert replayed[1] == ToMsg(ex[1]) == AI(reply);
    assert replayed == [Human(userMsg), AI(reply)];
  }

  /** Appending the two turns one after the other appends the exchange. Kept
      apart from the methods so the solver meets this sequence identity
      without their state. */
  lemma AppendExchange(history: seq<Turn>, userMsg: string, reply: string)
    ensures history + [Turn("user", userMsg)] + [Turn("assistant", reply)] == history + Exchange(userMsg, reply)
  {
  }

  /** The part of a turn before the model is called: fill the slots, build the
      instruction from the updated slots, assemble the outbound messages from
      the history as it was, then store the user turn. When this returns, the
      backing file already holds the user turn, whatever the model later does. */
  method BeginTurn(memory: MemoryManager, userMsg: string, m: Matcher) returns (convo: seq<Msg>)
    modifies memory
    ensures memory.slots == Capture(SlotPatterns, m, userMsg, old(memory.slots))
    ensures convo == Outbound(BuildSystemContext(memory.slots), old(memory.history), userMsg)
    ensures memory.history == old(memory.history) + [Turn("user", userMsg)]
    ensures memory.Durable()
  {
    CaptureSlots(SlotPatterns, userMsg, m, memory);
    var sysContext := BuildSystemContext(memory.slots);
    var past := memory.GetHistory();
    convo := [System(sysContext)] + past + [Human(userMsg)];
    memory.AddTurn("user", userMsg);
  }

  /** The part of a turn from the model call on: read the whole reply, then
      store the assistant turn. The slots are not touched. */
  method EndTurn(memory: MemoryManager, convo: seq<Msg>, model: Model) returns (reply: string)
    modifies memory
    ensures reply == Strip(Received(model(convo)), IsSpace)
    ensures memory.slots == old(memory.slots)
    ensures memory.history == old(memory.history) + [Turn("assistant", reply)]
    ensures memory.Durable()
  {
    reply := StreamResponse(model(convo));
    memory.AddTurn("assistant", reply);
  }

  /** One turn for a non-command utterance: the two halves in order. */
  method RunTurn(memory: MemoryManager, userMsg: string, m: Matcher, model: Model)
    returns (convo: seq<Msg>, reply: string)
    modifies memory
    ensures memory.slots == Capture(SlotPatterns, m, userMsg, old(memory.slots))
    ensures convo == Outbound(BuildSystemContext(memory.slots), old(memory.history), userMsg)
    ensures reply == Strip(Received(model(convo)), IsSpace)
    ensures memory.history == old(memory.history) + Exchange(userMsg, reply)
    ensures memory.Durable()
  {
    convo := BeginTurn(memory, userMsg, m);
    reply := EndTurn(memory, convo, model);
    AppendExchange(old(memory.history), userMsg, reply);
  }

  /** Two turns in a row leave four new history entries: user, assistant, user, assistant. */
  method TwoTurns(memory: MemoryManager, first: string, second: string, m: Matcher, model: Model)
    returns (reply1: string, reply2: string)
    modifies memory
    ensures memory.history == old(memory.history)
            + [Turn("user", first), Turn("assistant", reply1), Turn("user", second), Turn("assistant", reply2)]
    ensures memory.Durable()
  {
    var convo1, convo2;
    convo1, reply1 := RunTurn(memory, first, m, model);
    convo2, reply2 := RunTurn(memory, second, m, model);
    AppendPairs(old(memory.history), Turn("user", first), Turn("assistant", reply1),
                Turn("user", second), Turn("assistant", reply2));
  }

  /** Two appended pairs read as four appended turns. Kept apart from the
      methods so the solver meets this sequence identity without their state. */
  lemma AppendPairs(h: seq<Turn>, a: Turn, b: Turn, c: Turn, d: Turn)
    ensures h + [a, b] + [c, d] == h + [a, b, c, d]
  {
  }
}
