/** The persisted conversation session: an ordered history of role-tagged turns
    and a string-to-string slot map, kept by `MemoryManager`, which writes the
    whole session through to its backing file after every change. */
module Session {
  import opened Wrappers

  /** One stored `{role, content}` record of the history. */
  datatype Turn = Turn(role: string, content: string)

  /** The chat-model message kinds a stored turn is replayed as. */
  datatype Msg = System(content: string) | Human(content: string) | AI(content: string)

  /** The whole persisted document: `{"history": [...], "slots": {...}}`. */
  datatype SessionState = SessionState(history: seq<Turn>, slots: map<string, string>)

  const EmptySession := SessionState([], map[])

  /** What the backing file holds: nothing yet, something that does not parse,
      or a saved session. */
  datatype Store = NoFile | Unreadable | Saved(session: SessionState)

  /** The session the manager starts from: the saved one, or the empty
      session when the file is missing or cannot be read. */
  function Loaded(store: Store): (s: SessionState)
    ensures store.Saved? ==> s == store.session
    ensures !store.Saved? ==> s.history == [] && s.slots == map[]
  {
    match store
    case Saved(session) => session
    case _ => EmptySession
  }

  /** The message kind a stored turn is replayed as: role "system" gives a
      system message, role "user" a human message, every other role an AI
      message; the text is carried over unchanged. */
  function ToMsg(t: Turn): (m: Msg)
    ensures m.content == t.content
    ensures m.System? <==> t.role == "system"
    ensures m.Human? <==> t.role == "user"
    ensures m.AI? <==> t.role != "system" && t.role != "user"
  {
    if t.role == "system" then System(t.content)
    else if t.role == "user" then Human(t.content)
    else AI(t.content)
  }

  /** The whole history replayed as messages, built front to back. */
  function HistoryMessages(h: seq<Turn>): (ms: seq<Msg>)
    ensures |ms| == |h|
    ensures forall i :: 0 <= i < |h| ==> ms[i] == ToMsg(h[i])
  {
    if h == [] then [] else HistoryMessages(h[..|h| - 1]) + [ToMsg(h[|h| - 1])]
  }

  /** Replaying a history extended by some turns replays the old history first. */
  lemma {:induction false} HistoryMessagesAppend(h: seq<Turn>, more: seq<Turn>)
    ensures HistoryMessages(h + more) == HistoryMessages(h) + HistoryMessages(more)
  {
    var l, r := HistoryMessages(h + more), HistoryMessages(h) + HistoryMessages(more);
    assert |l| == |r|;
    forall i | 0 <= i < |l| ensures l[i] == r[i] {
      if i < |h| {
        assert (h + more)[i] == h[i];
      } else {
        assert (h + more)[i] == more[i - |h|];
      }
    }
  }

  class MemoryManager {
    /** The session's ordered turns. */
    var history: seq<Turn>
    /** The extracted user details. */
    var slots: map<string, string>
    /** The contents of the backing file. */
    var store: Store

    /** The in-memory session as one value. */
    function Snapshot(): SessionState
      reads this
    {
      SessionState(history, slots)
    }

    /** The backing file holds exactly the in-memory session. */
    predicate Durable()
      reads this
    {
      store == Saved(Snapshot())
    }

    /** Starts from the session found in the backing file, or from the empty
        session when there is no file or it cannot be read. The file itself is
        not rewritten. */
    constructor (file: Store)
      ensures Snapshot() == Loaded(file)
      ensures store == file
    {
      history, slots := Loaded(file).history, Loaded(file).slots;
      store := file;
    }

    /** Overwrites the backing file with the whole current session. */
    method Save()
      modifies this`store
      ensures Durable()
    {
      store := Saved(Snapshot());
    }

    /** Appends one `{role, content}` turn at the end of the history and persists. */
    method AddTurn(role: string, content: string)
      modifies this
      ensures history == old(history) + [Turn(role, content)]
      ensures slots == old(slots)
      ensures Durable()
    {
      history := history + [Turn(role, content)];
      Save();
    }

    /** The stored turns as chat messages, in stored order. */
    method GetHistory() returns (msgs: seq<Msg>)
      ensures msgs == HistoryMessages(history)
    {
      msgs := [];
      for i := 0 to |history|
        invariant msgs == HistoryMessages(history[..i])
      {
        assert history[..i + 1][..i] == history[..i];
        var h := history[i];
        if h.role == "system" {
          msgs := msgs + [System(h.content)];
        } else if h.role == "user" {
          msgs := msgs + [Human(h.content)];
        } else {
          msgs := msgs + [AI(h.content)];
        }
      }
      assert history[..|history|] == history;
    }

    /** Sets one slot, last write wins, and persists. */
    method SetSlot(key: string, value: string)
      modifies this
      ensures slots == old(slots)[key := value]
      ensures history == old(history)
      ensures Durable()
    {
      slots := slots[key := value];
      Save();
    }

    /** The value of slot `key`, or `default` when the slot is absent. */
    method GetSlot(key: string, default: Option<string>) returns (r: Option<string>)
      ensures key in slots ==> r == Some(slots[key])
      ensures key !in slots ==> r == default
    {
      if key in slots {
        r := Some(slots[key]);
      } else {
        r := default;
      }
    }

    /** Resets the session to empty history and no slots, and persists. */
    method Clear()
      modifies this
      ensures history == [] && slots == map[]
      ensures Durable()
    {
      history, slots := [], map[];
      Save();
    }
  }

  /** A reset survives a restart: a manager loaded from the file that `Clear`
      left behind starts with no history and no slots. */
  method ReloadAfterClear(memory: MemoryManager) returns (reloaded: MemoryManager)
    modifies memory
    ensures memory.history == [] && memory.slots == map[] && memory.Durable()
    ensures reloaded.history == [] && reloaded.slots == map[]
  {
    memory.Clear();
    reloaded := new MemoryManager(memory.store);
  }
}
