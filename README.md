# EduGuide session core in Dafny

EduGuide is a terminal chatbot that answers education questions
(`eduassistant.py`). This project models its session and memory logic.

The session is an ordered history of `{role, content}` turns plus a
string-to-string slot map. `EduMemoryManager` keeps it and writes the whole
session back to its JSON file after every change.

On each turn the program does four things:

1. It fills the `name`, `destination` and `course` slots from the user's
   message, using a fixed table of patterns.
2. It builds a fresh system instruction: the base prompt, plus a "Context:"
   block with one line per set slot.
3. It assembles the instruction, the replayed history and the new message.
4. It stores the user turn, sends the assembled messages to the chat model,
   reads the streamed reply, and stores the assistant turn.

The files:

- `wrappers.dfy`: the `Option` type.
- `text.dfy`: the Python string operations the core relies on, over
  `seq<char>`:
  - `str.strip(chars)` as `Strip`, with a predicate for the stripped
    characters;
  - `str.split()`, splitting on the `str.isspace` characters;
  - `str.join`.
- `session.dfy`: the session data and the class `MemoryManager`.
  - The class has fields `history`, `slots` and `store`.
  - `store` is the content of the backing file: nothing, unreadable, or a
    saved session.
  - `Save` is the abstract persist step; `Durable()` says the file holds
    the in-memory session.
- `context.dfy`: `BuildSystemContext`, with a line-by-line reference
  description `ItemisedContext` and a proof that the two agree.
- `slots.dfy`: the extraction policy of `capture_slots`.
  - The regular-expression engine is an abstract matcher `(pattern, text) ->
    Option<Groups>`.
  - The first match per slot, the last group stripped of `" .!?"`, the
    six-word guard and the early `break` are modelled exactly.
  - `CaptureSlots` is the nested loop, proved against the specification
    function `Capture`.
- `conversation.dfy`:
  - `StreamResponse` is the accumulating loop, proved against
    `Strip(Received(chunks))`.
  - `RunTurn` is one non-command iteration of the main loop, and `TwoTurns`
    two such iterations in a row.
  - `RunTurn` is split at the model call. `BeginTurn` runs up to the model
    call and ends with the user turn saved. `EndTurn` reads the reply and
    saves the assistant turn.
  - The chat model is a function from the outbound message sequence to the
    chunk stream it returns.

Two consequences of the code are easy to miss:

- A captured value loses exactly the four characters space, `.`, `!` and
  `?` from its ends (`eduassistant.py:114`). Tabs and newlines at the edges
  are kept.
- "I am interested in Computer Science and I plan to study in Germany"
  leaves the course slot unset. The course pattern captures "Computer
  Science and I plan to study in Germany". That capture has nine words, so
  the six-word guard rejects it.

## Model

| member | source | states |
|---|---|---|
| Text.TrimStart | eduassistant.py:114 | the left-stripped text is a suffix of the input; every removed character is one of the stripped characters; and the result does not start with one |
| Text.TrimEnd | eduassistant.py:114 | the right-stripped text is a prefix of the input; every removed character is one of the stripped characters; and the result does not end with one |
| Text.Strip | eduassistant.py:114 | the stripped text is no longer than the input and neither starts nor ends with a stripped character |
| Text.StripKeepsMiddle | eduassistant.py:114 | the stripped text is a contiguous piece of the input, and everything cut off before and after it is a stripped character |
| Text.TrimEndOfSuffix | eduassistant.py:139 | right-stripping the tail of a text from a position keeps a piece starting at that position, and cuts off only stripped characters |
| Text.IsSpace | eduassistant.py:115 | the characters `str.isspace` accepts: the separators of `str.split()` and what `str.strip()` removes by default |
| Text.TakeWord | eduassistant.py:115 | the first word is a prefix of the text without whitespace, and it ends at the end of the text or at a whitespace character |
| Text.Split | eduassistant.py:115 | `str.split()`: after the leading whitespace, the first word, then the words of the rest; nothing for a text that is all whitespace |
| Text.SplitCountsWords | eduassistant.py:115 | the number of items `str.split()` returns is the number of word starts in the text: non-whitespace characters at the start or after whitespace |
| Text.SkipSpaceKeepsStarts | eduassistant.py:115 | leading whitespace contains no word start |
| Text.WordKeepsStarts | eduassistant.py:115 | no new word starts before the first whitespace |
| Text.Join | eduassistant.py:89 | `sep.join(parts)`: nothing for no parts, the part itself for one, otherwise the parts with `sep` between neighbours |
| Text.JoinAsPrefixEach | eduassistant.py:89 | one separator followed by the separator-joined parts equals every part preceded by its own separator |
| Text.PrefixEachAppend | eduassistant.py:81-89 | prefixing each part distributes over concatenation of the part lists |
| Session.Loaded | eduassistant.py:35-41 | the starting session is the saved one when the file holds one; it is empty when the file is missing or unreadable |
| Session.ToMsg | eduassistant.py:55-60 | a turn becomes a system message if and only if its role is "system", a human message if and only if its role is "user", and an AI message otherwise; the text is kept |
| Session.HistoryMessages | eduassistant.py:52-61 | the replay has the history's length, and position i is the message kind of turn i |
| Session.HistoryMessagesAppend | eduassistant.py:52-61 | replaying a longer history replays the older part first, unchanged |
| Session.MemoryManager.constructor | eduassistant.py:30-41 | a new manager holds the session loaded from the file and does not rewrite the file |
| Session.MemoryManager.Durable | eduassistant.py:43-45 | the backing file holds exactly the in-memory session, as `save()` leaves it |
| Session.MemoryManager.Save | eduassistant.py:43-45 | afterwards the file holds exactly the in-memory session |
| Session.MemoryManager.AddTurn | eduassistant.py:48-50 | the history gains exactly one turn with the given role and content, at its end; the slots are unchanged; the session is saved |
| Session.MemoryManager.GetHistory | eduassistant.py:52-61 | returns the history replayed as messages, in order |
| Session.MemoryManager.SetSlot | eduassistant.py:64-66 | the slot holds the new value (last write wins); all other slots and the history are unchanged; the session is saved |
| Session.MemoryManager.GetSlot | eduassistant.py:68-69 | returns the slot's value when the key is present and the default otherwise; no state changes |
| Session.MemoryManager.Clear | eduassistant.py:71-73 | history and slots are both empty, and that empty session is saved |
| Session.ReloadAfterClear | eduassistant.py:71-73 | after a reset the manager is empty and its file holds that empty session, so a manager loaded from that file also starts with no history and no slots |
| Context.BuildSystemContext | eduassistant.py:77-90 | the instruction always starts with the base prompt, and it is the base prompt alone exactly when none of name, destination and course is set to a non-empty value |
| Context.Filled | eduassistant.py:82-86 | a slot counts as set when it is present and not empty, as Python's truth test on the looked-up value |
| Context.Detail | eduassistant.py:82-87 | one slot's labelled line when that slot is set, nothing otherwise |
| Context.Details | eduassistant.py:81-87 | the labelled lines of the set slots among name, destination and course, in that order |
| Context.ItemIsPrefixedDetail | eduassistant.py:82-87 | a set slot's labelled line behind the bullet separator is that slot's bullet item; an unset slot contributes nothing |
| Context.DetailsAsItems | eduassistant.py:81-87 | the collected lines, each behind the bullet separator, are the name, destination and course items in that order |
| Context.JoinedBehindHeader | eduassistant.py:89 | a header, one separator and the separator-joined lines equal the header followed by every line behind its own separator |
| Context.BuildIsItemised | eduassistant.py:77-90 | the instruction is the base prompt, then "\n\nContext:" only when some slot is set, then one "\n- " line per set slot in the order name, destination, course |
| Context.NameOnlyContext | eduassistant.py:82-89 | with only the name set, the instruction is the base prompt, then "\n\nContext:\n- User’s name: ", then the name |
| Context.OnlyThreeSlotsMatter | eduassistant.py:78-80 | two slot maps that agree on name, destination and course give the same instruction |
| Slots.FirstMatch | eduassistant.py:111-113 | a slot finds no match exactly when none of its patterns matches |
| Slots.FirstMatchIsFirst | eduassistant.py:111-117 | the groups used are those of the first pattern, in table order, that matches |
| Slots.LaterPatternsUnread | eduassistant.py:111-117 | patterns after the first matching one are never consulted: matchers that agree up to that pattern give the same result |
| Slots.IsValuePunct | eduassistant.py:114 | the characters stripped from a candidate: space, `.`, `!` and `?` |
| Slots.Candidate | eduassistant.py:114 | the candidate is the last group stripped of " .!?", so it neither starts nor ends with one of those characters |
| Slots.AcceptedIffFewWords | eduassistant.py:115 | the guard admits a value if and only if it has at most six whitespace-separated words |
| Slots.Accepted | eduassistant.py:115 | the guard `len(value.split()) <= 6` |
| Slots.Commits | eduassistant.py:113-116 | a rule writes its slot exactly when one of its patterns matches and the first match's candidate passes the word-count guard |
| Slots.ApplyRule | eduassistant.py:111-117 | one slot's step changes no other slot; when the first match's candidate passes the guard, the slot holds that candidate; otherwise the slot keeps its previous value or absence |
| Slots.RejectedStopsSlot | eduassistant.py:113-117 | when the first matching pattern's candidate is rejected, the slots stay as they were, even if a later pattern would have given an acceptable value |
| Slots.Capture | eduassistant.py:110-117 | the specification of the capture loop: each rule's step applied in table order to the slots left by the previous one |
| Slots.CaptureKeepsOtherKeys | eduassistant.py:110-117 | a key that no rule names is unchanged by the whole capture |
| Slots.CaptureBySlot | eduassistant.py:110-117 | with distinct keys, each slot ends up exactly as its own rule alone leaves it |
| Slots.LongDestinationKept | eduassistant.py:99-115 | a destination candidate with more than six words does not overwrite the stored destination |
| Slots.CaptureSlots | eduassistant.py:109-117 | the slot map after the loop is the table-order capture of the old one; the history is untouched; the session is saved when some slot was written, and the file is untouched otherwise |
| Conversation.ChunkText | eduassistant.py:133-134 | a chunk's text, with a chunk that has no content giving nothing |
| Conversation.Received | eduassistant.py:131-136 | all chunk text in arrival order, a chunk without content giving nothing |
| Conversation.ReceivedAppend | eduassistant.py:132-136 | the text of a stream split in two is the first part's text followed by the second's |
| Conversation.StreamResponse | eduassistant.py:130-139 | the reply is all the chunk text received, in arrival order, with surrounding whitespace stripped; it neither starts nor ends with whitespace |
| Conversation.Outbound | eduassistant.py:184-186 | the outbound sequence is the system instruction first, then every stored turn as its message in order, then the user message as a human message |
| Conversation.ExchangeReplay | eduassistant.py:185-192 | on the next turn a completed exchange is replayed as a human message followed by an AI message |
| Conversation.BeginTurn | eduassistant.py:177-188 | the slots are captured first and the instruction is built from the updated slots. The outbound sequence is that instruction, the old history and the user message. On return the history has gained exactly the user turn and the file holds it; this is the state the model call starts from |
| Conversation.EndTurn | eduassistant.py:190-192 | the reply is the stripped text of the model's stream for the outbound sequence. The history gains exactly the assistant turn and is saved; the slots are unchanged |
| Conversation.RunTurn | eduassistant.py:177-192 | a turn is `BeginTurn` then `EndTurn`. The slots are the captured ones, and the outbound sequence is built from them and the old history. The reply is the stripped stream text. The history grows by exactly the user turn and then the assistant turn; the instruction is never stored |
| Conversation.TwoTurns | eduassistant.py:188-192 | two turns in a row add exactly four history entries: user, assistant, user, assistant; afterwards the file holds the whole session |
| Slots.SlotPatternsDistinct | eduassistant.py:94-107 | the pattern table names each slot once |

## Left out

- Reading and writing the JSON file (`_load`, `save`) is modelled only by
  its effect. `Store` is the file's content and `Save` replaces it with the
  current session.
  - Encoding, indentation and I/O errors while writing are not modelled.
  - A file that parses as JSON but has another shape is not modelled:
    - If the `history` or `slots` key is missing, later lookups raise
      `KeyError`.
    - Slot values that are not strings are not modelled. The f-strings
      render a number, and a falsy value is skipped.
    - Top-level keys other than `history` and `slots` are dropped.
      `SessionState` has only those two parts, while the program keeps
      extra keys and writes them back on every `save`.
- Regular-expression matching (`re.search` with `re.IGNORECASE`) is not
  modelled. The matcher is a parameter that returns the groups of a match.
  - `Groups` is non-empty: every pattern in the table has a capture group,
    and its last group always takes part in a match, so `groups()[-1]` is
    always a string.
  - One consequence is not visible in the model. Under `re.IGNORECASE`, the
    `[A-Z]` classes of the name patterns also match lower-case letters. So
    "I am interested in history" sets the name to "interested in history".
- Slots.CaptureSlots: the slot table is a parameter. `BeginTurn` (and so `RunTurn`) passes the
  fixed table `SlotPatterns`.
- Creating the chat client (`get_llm`), environment lookups and
  `load_dotenv` are not modelled: they are configuration and network
  set-up.
  - The model call itself is a function from the outbound messages to the
    stream of chunk contents.
- Conversation.StreamResponse: each chunk's content is an optional string. A
  content of another type is not modelled.
- Printing, the `time.sleep` pacing between chunks, and reading input are
  left out: they are terminal I/O with no effect on the session.
- Most of the command dispatch in `main` is not modelled:
  - the stripping of the input line;
  - skipping empty input;
  - `exit`;
  - `summary`, which only prints.
  `reset` is `MemoryManager.Clear`.
- Conversation.RunTurn: models one iteration for an input that has already passed
  that dispatch. It does not require the message to be non-empty or
  stripped, because nothing in the turn depends on it.
- The langchain message classes are the datatype `Msg`, with `System`,
  `Human` and `AI`.
