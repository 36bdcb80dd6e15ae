/** The system instruction sent to the model on every turn: the fixed base
    prompt, followed by a "Context:" block with one labelled line for each of
    the name, destination and course slots that is set. */
module Context {
  import opened Text

  const BasePrompt: string :=
    "You are EduGuide, a helpful academic assistant. "
    + "You should only answer questions related to education: universities, "
    + "scholarships, study abroad, courses, exams, and student life. "
    + "If asked about something else, politely say that you only answer education-related questions.\n\n"
    + "Consider any context provided (name, destination, course) when shaping your replies."

  /** Introduces the context block; the first line follows it after a bullet. */
  const ContextHeader := "\n\nContext:"
  /** Separates the lines of the context block. */
  const Bullet := "\n- "

  /** The label carries a right single quotation mark (U+2019), not an ASCII apostrophe. */
  const NameLabel := "User\U{2019}s name: "
  const DestinationLabel := "Preferred study destination: "
  const CourseLabel := "Interested course/degree: "

  /** A slot counts as set when it is present and not empty (Python truthiness of `get_slot(key)`). */
  predicate Filled(slots: map<string, string>, key: string) {
    key in slots && slots[key] != ""
  }

  /** True when at least one of the three rendered slots is set. */
  predicate AnyFilled(slots: map<string, string>) {
    Filled(slots, "name") || Filled(slots, "destination") || Filled(slots, "course")
  }

  /** The labelled line for one slot, or nothing when it is not set. */
  function Detail(slots: map<string, string>, key: string, caption: string): seq<string> {
    if Filled(slots, key) then [caption + slots[key]] else []
  }

  /** The context lines in their fixed order: name, destination, course. */
  function Details(slots: map<string, string>): seq<string> {
    Detail(slots, "name", NameLabel)
    + Detail(slots, "destination", DestinationLabel)
    + Detail(slots, "course", CourseLabel)
  }

  /** The system instruction for the current slots. It always starts with the
      base prompt, and it is the base prompt alone exactly when none of the
      three slots is set. */
  function BuildSystemContext(slots: map<string, string>): (r: string)
    ensures |BasePrompt| <= |r| && r[..|BasePrompt|] == BasePrompt
    ensures r == BasePrompt <==> !AnyFilled(slots)
  {
    var details := Details(slots);
    if details != [] then BasePrompt + ContextHeader + Bullet + Join(Bullet, details)
    else BasePrompt
  }

  /** One bullet line for a set slot, nothing otherwise. */
  function Item(slots: map<string, string>, key: string, caption: string): string {
    if Filled(slots, key) then Bullet + caption + slots[key] else ""
  }

  /** The instruction described line by line: the header only when some slot is
      set, then one bullet per set slot in the order name, destination, course. */
  function ItemisedContext(slots: map<string, string>): string {
    BasePrompt
    + (if AnyFilled(slots) then ContextHeader else "")
    + Item(slots, "name", NameLabel)
    + Item(slots, "destination", DestinationLabel)
    + Item(slots, "course", CourseLabel)
  }

  /** A slot's bullet is its line, if any, behind the separator. */
  lemma ItemIsPrefixedDetail(slots: map<string, string>, key: string, caption: string)
    ensures PrefixEach(Bullet, Detail(slots, key, caption)) == Item(slots, key, caption)
  {
    if Filled(slots, key) {
      assert PrefixEach(Bullet, [caption + slots[key]]) == Bullet + (caption + slots[key]) + "";
    }
  }

  /** The context lines, each behind its bullet, are the three items in order. */
  lemma DetailsAsItems(slots: map<string, string>)
    ensures PrefixEach(Bullet, Details(slots))
            == Item(slots, "name", NameLabel) + Item(slots, "destination", DestinationLabel)
               + Item(slots, "course", CourseLabel)
  {
    var n := Detail(slots, "name", NameLabel);
    var d := Detail(slots, "destination", DestinationLabel);
    var c := Detail(slots, "course", CourseLabel);
    ItemIsPrefixedDetail(slots, "name", NameLabel);
    ItemIsPrefixedDetail(slots, "destination", DestinationLabel);
    ItemIsPrefixedDetail(slots, "course", CourseLabel);
    PrefixEachAppend(Bullet, n, d);
    PrefixEachAppend(Bullet, n + d, c);
  }

  /** A header, then parts joined behind one separator, reads as the header
      followed by the parts each behind its own separator. */
  lemma JoinedBehindHeader(head: string, sep: string, parts: seq<string>, items: string)
    requires parts != [] && PrefixEach(sep, parts) == items
    ensures head + sep + Join(sep, parts) == head + items
  {
    JoinAsPrefixEach(sep, parts);
  }

  /** Regrouping a concatenation (kept apart so the long prompt literal stays out of it). */
  lemma AppendRegroup(head: string, a: string, b: string, c: string)
    ensures head + (a + b + c) == head + a + b + c
  {
  }

  /** The joined rendering equals the line-by-line description. */
  lemma BuildIsItemised(slots: map<string, string>)
    ensures BuildSystemContext(slots) == ItemisedContext(slots)
  {
    var details := Details(slots);
    var i1, i2, i3 := Item(slots, "name", NameLabel), Item(slots, "destination", DestinationLabel),
                      Item(slots, "course", CourseLabel);
    DetailsAsItems(slots);
    if details != [] {
      var head := BasePrompt + ContextHeader;
      JoinedBehindHeader(head, Bullet, details, i1 + i2 + i3);
      AppendRegroup(head, i1, i2, i3);
    } else {
      assert i1 == "" && i2 == "" && i3 == "";
    }
  }

  /** With only the name set, the context block is the single name line. */
  lemma NameOnlyContext(slots: map<string, string>)
    requires Filled(slots, "name") && !Filled(slots, "destination") && !Filled(slots, "course")
    ensures BuildSystemContext(slots) == BasePrompt + "\n\nContext:\n- User\U{2019}s name: " + slots["name"]
  {
    BuildIsItemised(slots);
  }

  /** Slots other than name, destination and course never reach the instruction. */
  lemma OnlyThreeSlotsMatter(a: map<string, string>, b: map<string, string>)
    requires forall k :: k in {"name", "destination", "course"} ==>
               Filled(a, k) == Filled(b, k) && (Filled(a, k) ==> a[k] == b[k])
    ensures BuildSystemContext(a) == BuildSystemContext(b)
  {
    assert Details(a) == Details(b) by {
      assert "name" in {"name", "destination", "course"};
      assert "destination" in {"name", "destination", "course"};
      assert "course" in {"name", "destination", "course"};
    }
  }
}
