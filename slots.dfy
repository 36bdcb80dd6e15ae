/** Rule-based slot filling: for each slot in declaration order, the first of
    its patterns that matches the utterance supplies a candidate value (its last
    capture group, stripped of " .!?"), which is committed only when it has at
    most six words. The regular-expression engine itself is an abstract matcher. */
module Slots {
  import opened Wrappers
  import opened Text
  import opened Session

  /** The capture groups of one match, in order. Every pattern in the table
      has at least one group, and its last group always takes part in a match,
      so a match always yields a last group. */
  type Groups = g: seq<string> | |g| > 0 witness [""]

  /** Case-insensitive `re.search(pattern, text)`: the groups of the match, or
      None when the pattern does not match. */
  type Matcher = (string, string) -> Option<Groups>

  /** One slot and its candidate patterns, in the order they are tried. */
  datatype SlotRule = SlotRule(key: string, patterns: seq<string>)

  /** The slot table, in declaration order: name, destination, course. */
  const SlotPatterns: seq<SlotRule> := [
    SlotRule("name", [
      @"\bmy name is\s+([A-Z][a-zA-Z]+(?:\s+[A-Z][a-zA-Z]+)*)",
      @"\bi am\s+([A-Z][a-zA-Z]+(?:\s+[A-Z][a-zA-Z]+)*)"
    ]),
    SlotRule("destination", [
      @"\b(study|want to study|plan to study)\s+(?:in|at)\s+([A-Za-z\s]+)",
      @"\bdestination\s*:\s*([A-Za-z\s]+)"
    ]),
    SlotRule("course", [
      @"\b(interested in|want to study|course is)\s+([A-Za-z\s]+)",
      @"\bmajor\s*:\s*([A-Za-z\s]+)"
    ])
  ]

  /** A candidate with more words than this is discarded as a runaway capture. */
  const MaxWords := 6

  /** The characters stripped from both ends of a candidate. */
  predicate IsValuePunct(c: char) {
    c == ' ' || c == '.' || c == '!' || c == '?'
  }

  /** The groups of the first pattern, in order, that matches `text`; later
      patterns are not consulted. */
  function FirstMatch(pats: seq<string>, m: Matcher, text: string): (r: Option<Groups>)
    ensures r.None? <==> forall k :: 0 <= k < |pats| ==> m(pats[k], text).None?
  {
    if pats == [] then None
    else match m(pats[0], text)
      case Some(g) => Some(g)
      case None =>
        var r := FirstMatch(pats[1..], m, text);
        assert forall k :: 1 <= k < |pats| ==> pats[1..][k - 1] == pats[k];
        r
  }

  /** The pattern whose groups are used is the first one that matches. */
  lemma {:induction false} FirstMatchIsFirst(pats: seq<string>, m: Matcher, text: string, k: nat)
    requires k < |pats| && m(pats[k], text).Some?
    requires forall j :: 0 <= j < k ==> m(pats[j], text).None?
    ensures FirstMatch(pats, m, text) == m(pats[k], text)
  {
    if k > 0 {
      assert m(pats[0], text).None?;
      assert forall j :: 0 <= j < k - 1 ==> pats[1..][j] == pats[j + 1];
      FirstMatchIsFirst(pats[1..], m, text, k - 1);
    }
  }

  /** Patterns after the first match are never consulted: two matchers that
      agree on every pattern up to and including the first one that matches
      give the same result, whatever they say about the rest. */
  lemma {:induction false} LaterPatternsUnread(pats: seq<string>, m: Matcher, m': Matcher, text: string, k: nat)
    requires k < |pats| && m(pats[k], text).Some?
    requires forall j :: 0 <= j <= k ==> m(pats[j], text) == m'(pats[j], text)
    ensures FirstMatch(pats, m, text) == FirstMatch(pats, m', text)
  {
    if m(pats[0], text).None? {
      assert k > 0;
      assert forall j :: 0 <= j <= k - 1 ==> pats[1..][j] == pats[j + 1];
      LaterPatternsUnread(pats[1..], m, m', text, k - 1);
    }
  }

  /** The candidate value: the last group, with " .!?" stripped from both ends. */
  function Candidate(g: Groups): (v: string)
    ensures v != [] ==> !IsValuePunct(v[0]) && !IsValuePunct(v[|v| - 1])
  {
    Strip(g[|g| - 1], IsValuePunct)
  }

  /** The word-count guard `len(value.split()) <= 6`. */
  predicate Accepted(v: string) {
    |Split(v)| <= MaxWords
  }

  /** The guard admits exactly the values with at most six word starts. */
  lemma AcceptedIffFewWords(v: string)
    ensures Accepted(v) <==> WordStarts(v, true) <= MaxWords
  {
    SplitCountsWords(v);
  }

  /** The rule writes its slot: some pattern matched and the candidate passed the guard. */
  predicate Commits(rule: SlotRule, m: Matcher, text: string) {
    var found := FirstMatch(rule.patterns, m, text);
    found.Some? && Accepted(Candidate(found.value))
  }

  /** `a` and `b` agree on key `k`: both lack it, or both hold the same value. */
  predicate AgreeOn(a: map<string, string>, b: map<string, string>, k: string) {
    (k in a <==> k in b) && (k in a ==> a[k] == b[k])
  }

  /** One slot's turn: overwrite the slot with the first match's candidate when
      it passes the guard, otherwise leave every slot as it was. */
  function ApplyRule(rule: SlotRule, m: Matcher, text: string, slots: map<string, string>): (r: map<string, string>)
    ensures forall k :: k != rule.key ==> AgreeOn(r, slots, k)
    ensures Commits(rule, m, text) ==> rule.key in r && r[rule.key] == Candidate(FirstMatch(rule.patterns, m, text).value)
    ensures !Commits(rule, m, text) ==> AgreeOn(r, slots, rule.key)
  {
    match FirstMatch(rule.patterns, m, text)
    case None => slots
    case Some(g) =>
      var value := Candidate(g);
      if Accepted(value) then slots[rule.key := value] else slots
  }

  /** A match whose candidate fails the guard leaves the slot untouched, even
      when a later pattern of the same slot would have produced an acceptable value. */
  lemma RejectedStopsSlot(rule: SlotRule, m: Matcher, text: string, slots: map<string, string>, k: nat)
    requires k < |rule.patterns| && m(rule.patterns[k], text).Some?
    requires forall j :: 0 <= j < k ==> m(rule.patterns[j], text).None?
    requires !Accepted(Candidate(m(rule.patterns[k], text).value))
    ensures ApplyRule(rule, m, text, slots) == slots
  {
    FirstMatchIsFirst(rule.patterns, m, text, k);
  }

  /** All slots in table order. */
  function Capture(rules: seq<SlotRule>, m: Matcher, text: string, slots: map<string, string>): map<string, string>
    decreases |rules|
  {
    if rules == [] then slots else Capture(rules[1..], m, text, ApplyRule(rules[0], m, text, slots))
  }

  /** Whether any rule of `rules` writes its slot (and so saves the session). */
  predicate AnyCommits(rules: seq<SlotRule>, m: Matcher, text: string)
    decreases |rules|
  {
    rules != [] && (AnyCommits(rules[..|rules| - 1], m, text) || Commits(rules[|rules| - 1], m, text))
  }

  /** No two rules fill the same slot. */
  predicate DistinctKeys(rules: seq<SlotRule>) {
    forall i, j :: 0 <= i < j < |rules| ==> rules[i].key != rules[j].key
  }

  lemma SlotPatternsDistinct()
    ensures DistinctKeys(SlotPatterns)
  {
  }

  /** Keys that no rule names pass through the capture unchanged. */
  lemma {:induction false} CaptureKeepsOtherKeys(rules: seq<SlotRule>, m: Matcher, text: string, slots: map<string, string>, k: string)
    requires forall i :: 0 <= i < |rules| ==> rules[i].key != k
    ensures AgreeOn(Capture(rules, m, text, slots), slots, k)
    decreases |rules|
  {
    if rules != [] {
      assert rules[0].key != k;
      var next := ApplyRule(rules[0], m, text, slots);
      assert forall i :: 0 <= i < |rules| - 1 ==> rules[1..][i] == rules[i + 1];
      CaptureKeepsOtherKeys(rules[1..], m, text, next, k);
    }
  }

  /** With distinct keys the slots are filled independently: each slot ends
      up exactly as its own rule alone would leave it. */
  lemma {:induction false} CaptureBySlot(rules: seq<SlotRule>, m: Matcher, text: string, slots: map<string, string>, i: nat)
    requires DistinctKeys(rules) && i < |rules|
    ensures AgreeOn(Capture(rules, m, text, slots), ApplyRule(rules[i], m, text, slots), rules[i].key)
    decreases |rules|
  {
    var next := ApplyRule(rules[0], m, text, slots);
    assert forall j :: 0 <= j < |rules| - 1 ==> rules[1..][j] == rules[j + 1];
    if i == 0 {
      CaptureKeepsOtherKeys(rules[1..], m, text, next, rules[0].key);
    } else {
      CaptureBySlot(rules[1..], m, text, next, i - 1);
      var key := rules[i].key;
      assert rules[0].key != key;
      assert AgreeOn(next, slots, key);
      assert AgreeOn(ApplyRule(rules[i], m, text, next), ApplyRule(rules[i], m, text, slots), key);
    }
  }

  /** A destination capture of more than six words does not overwrite the stored destination. */
  lemma LongDestinationKept(m: Matcher, text: string, slots: map<string, string>)
    requires FirstMatch(SlotPatterns[1].patterns, m, text).Some?
    requires WordStarts(Candidate(FirstMatch(SlotPatterns[1].patterns, m, text).value), true) > MaxWords
    ensures AgreeOn(Capture(SlotPatterns, m, text, slots), slots, "destination")
  {
    AcceptedIffFewWords(Candidate(FirstMatch(SlotPatterns[1].patterns, m, text).value));
    SlotPatternsDistinct();
    CaptureBySlot(SlotPatterns, m, text, slots, 1);
  }

  /** One step of the slot loop: the remaining rules from `i` are rule `i`, then the rest. */
  lemma CaptureStep(rules: seq<SlotRule>, m: Matcher, text: string, slots: map<string, string>, i: nat)
    requires i < |rules|
    ensures Capture(rules[i..], m, text, slots) == Capture(rules[i + 1..], m, text, ApplyRule(rules[i], m, text, slots))
    ensures AnyCommits(rules[..i + 1], m, text) == (AnyCommits(rules[..i], m, text) || Commits(rules[i], m, text))
  {
    assert rules[i..][0] == rules[i];
    assert rules[i..][1..] == rules[i + 1..];
    assert rules[..i + 1][..i] == rules[..i];
  }

  /** Runs a slot table over one utterance, writing each accepted value
      through `SetSlot`, which saves the session. The table is a parameter;
      a conversation turn passes `SlotPatterns`. */
  method CaptureSlots(rules: seq<SlotRule>, userText: string, m: Matcher, memory: MemoryManager)
    modifies memory
    ensures memory.slots == Capture(rules, m, userText, old(memory.slots))
    ensures memory.history == old(memory.history)
    ensures AnyCommits(rules, m, userText) ==> memory.Durable()
    ensures !AnyCommits(rules, m, userText) ==> memory.store == old(memory.store)
  {
    for i := 0 to |rules|
      invariant memory.history == old(memory.history)
      invariant Capture(rules, m, userText, old(memory.slots)) == Capture(rules[i..], m, userText, memory.slots)
      invariant AnyCommits(rules[..i], m, userText) ==> memory.Durable()
      invariant !AnyCommits(rules[..i], m, userText) ==> memory.store == old(memory.store)
    {
      var key, pats := rules[i].key, rules[i].patterns;
      ghost var before, storeBefore := memory.slots, memory.store;
      CaptureStep(rules, m, userText, before, i);
      for j := 0 to |pats|
        invariant memory.slots == before && memory.history == old(memory.history)
        invariant memory.store == storeBefore
        invariant FirstMatch(pats, m, userText) == FirstMatch(pats[j..], m, userText)
      {
        var found := m(pats[j], userText);
        assert pats[j..][0] == pats[j] && pats[j..][1..] == pats[j + 1..];
        if found.Some? {
          var value := Candidate(found.value);
          if Accepted(value) {
            memory.SetSlot(key, value);
          }
          break;
        }
      }
      assert memory.slots == ApplyRule(rules[i], m, userText, before);
    }
    assert rules[..|rules|] == rules;
  }
}
