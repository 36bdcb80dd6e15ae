/** The Python string operations the session core relies on: `str.strip`,
    `str.split()` with no separator and `str.join`, written over `seq<char>`. */
module Text {

  /** Python's `str.isspace` for one character: the separators of `str.split()`
      and the characters `str.strip()` removes when called without an argument. */
  predicate IsSpace(c: char) {
    || ('\t' <= c <= '\r')
    || ('\U{1C}' <= c <= ' ')
    || c == '\U{85}' || c == '\U{A0}' || c == '\U{1680}'
    || ('\U{2000}' <= c <= '\U{200A}')
    || c == '\U{2028}' || c == '\U{2029}' || c == '\U{202F}' || c == '\U{205F}' || c == '\U{3000}'
  }

  /** No character of `w` is whitespace. */
  predicate NoSpace(w: string) {
    forall k :: 0 <= k < |w| ==> !IsSpace(w[k])
  }

  /** `s.lstrip(chars)`, where `drop` says which characters are in `chars`. */
  function TrimStart(s: string, drop: char -> bool): (r: string)
    ensures |r| <= |s| && r == s[|s| - |r|..]
    ensures forall k :: 0 <= k < |s| - |r| ==> drop(s[k])
    ensures r == [] || !drop(r[0])
    decreases |s|
  {
    if s != [] && drop(s[0]) then
      var r := TrimStart(s[1..], drop);
      assert s[1..][|s| - 1 - |r|..] == s[|s| - |r|..];
      r
    else
      s
  }

  /** `s.rstrip(chars)`. */
  function TrimEnd(s: string, drop: char -> bool): (r: string)
    ensures |r| <= |s| && r == s[..|r|]
    ensures forall k :: |r| <= k < |s| ==> drop(s[k])
    ensures r == [] || !drop(r[|r| - 1])
    decreases |s|
  {
    if s != [] && drop(s[|s| - 1]) then
      var r := TrimEnd(s[..|s| - 1], drop);
      assert s[..|s| - 1][..|r|] == s[..|r|];
      r
    else
      s
  }

  /** `s.strip(chars)`: `s` without its leading and trailing characters that
      `drop` accepts; what is left neither starts nor ends with one. */
  function Strip(s: string, drop: char -> bool): (r: string)
    ensures |r| <= |s|
    ensures r != [] ==> !drop(r[0]) && !drop(r[|r| - 1])
  {
    TrimEnd(TrimStart(s, drop), drop)
  }

  /** The stripped text is a contiguous piece of `s`, and everything cut off
      on either side is a character that `drop` accepts. */
  lemma {:induction false} StripKeepsMiddle(s: string, drop: char -> bool)
    ensures var r, i := Strip(s, drop), |s| - |TrimStart(s, drop)|;
            && i + |r| <= |s| && r == s[i..i + |r|]
            && (forall k :: 0 <= k < i ==> drop(s[k]))
            && (forall k :: i + |r| <= k < |s| ==> drop(s[k]))
  {
    var t := TrimStart(s, drop);
    TrimEndOfSuffix(s, |s| - |t|, t, drop);
    assert Strip(s, drop) == TrimEnd(t, drop);
  }

  /** Right-stripping `t`, the tail of `s` from position `i`, keeps a piece of `s`
      starting at `i`, and cuts off only characters that `drop` accepts. */
  lemma {:induction false} TrimEndOfSuffix(s: string, i: nat, t: string, drop: char -> bool)
    requires i <= |s| && t == s[i..]
    ensures var r := TrimEnd(t, drop);
            && i + |r| <= |s| && r == s[i..i + |r|]
            && (forall k :: i + |r| <= k < |s| ==> drop(s[k]))
  {
    var r := TrimEnd(t, drop);
    forall k | i + |r| <= k < |s|
      ensures drop(s[k])
    {
      assert s[k] == t[k - i];
    }
  }

  /** The longest prefix of `s` without whitespace: one word when `s` does not start with a space. */
  function TakeWord(s: string): (w: string)
    ensures |w| <= |s| && w == s[..|w|] && NoSpace(w)
    ensures |w| == |s| || IsSpace(s[|w|])
  {
    if s == [] || IsSpace(s[0]) then [] else [s[0]] + TakeWord(s[1..])
  }

  /** Python's `s.split()`: the maximal runs of non-whitespace characters, in order. */
  function Split(s: string): seq<string>
    decreases |s|
  {
    var t := TrimStart(s, IsSpace);
    if t == [] then [] else [TakeWord(t)] + Split(t[|TakeWord(t)|..])
  }

  /** An independent count of the words of `s`: the positions holding a
      non-whitespace character that follows whitespace or the start of the text.
      `afterSpace` says whether the character before `s` was whitespace. */
  function WordStarts(s: string, afterSpace: bool): nat {
    if s == [] then 0
    else (if afterSpace && !IsSpace(s[0]) then 1 else 0) + WordStarts(s[1..], IsSpace(s[0]))
  }

  /** `len(s.split())` is the number of word starts in `s`. */
  lemma {:induction false} SplitCountsWords(s: string)
    ensures |Split(s)| == WordStarts(s, true)
    decreases |s|
  {
    var t := TrimStart(s, IsSpace);
    SkipSpaceKeepsStarts(s);
    if t != [] {
      var w := TakeWord(t);
      WordKeepsStarts(t[1..]);
      assert t[1..][|TakeWord(t[1..])|..] == t[|w|..];
      SplitCountsWords(t[|w|..]);
    }
  }

  /** Leading whitespace starts no word. */
  lemma {:induction false} SkipSpaceKeepsStarts(s: string)
    ensures WordStarts(s, true) == WordStarts(TrimStart(s, IsSpace), true)
    decreases |s|
  {
    if s != [] && IsSpace(s[0]) {
      SkipSpaceKeepsStarts(s[1..]);
    }
  }

  /** Inside a word no new word starts until whitespace is met. */
  lemma {:induction false} WordKeepsStarts(s: string)
    ensures WordStarts(s, false) == WordStarts(s[|TakeWord(s)|..], true)
    decreases |s|
  {
    if s != [] && !IsSpace(s[0]) {
      WordKeepsStarts(s[1..]);
      assert s[1..][|TakeWord(s[1..])|..] == s[|TakeWord(s)|..];
    }
  }

  /** Python's `sep.join(parts)`. */
  function Join(sep: string, parts: seq<string>): string
    decreases |parts|
  {
    if parts == [] then ""
    else if |parts| == 1 then parts[0]
    else parts[0] + sep + Join(sep, parts[1..])
  }

  /** Every part preceded by `sep`, concatenated. */
  function PrefixEach(sep: string, parts: seq<string>): string
    decreases |parts|
  {
    if parts == [] then "" else sep + parts[0] + PrefixEach(sep, parts[1..])
  }

  /** Joining a non-empty list behind one leading separator is the same as
      putting the separator in front of every part. */
  lemma {:induction false} JoinAsPrefixEach(sep: string, parts: seq<string>)
    requires parts != []
    ensures sep + Join(sep, parts) == PrefixEach(sep, parts)
    decreases |parts|
  {
    if |parts| > 1 {
      JoinAsPrefixEach(sep, parts[1..]);
      calc {
        sep + Join(sep, parts);
        sep + (parts[0] + sep + Join(sep, parts[1..]));
        sep + parts[0] + (sep + Join(sep, parts[1..]));
        sep + parts[0] + PrefixEach(sep, parts[1..]);
      }
    } else {
      assert PrefixEach(sep, parts[1..]) == "";
    }
  }

  /** Prefixing distributes over concatenation of the part lists. */
  lemma {:induction false} PrefixEachAppend(sep: string, a: seq<string>, b: seq<string>)
    ensures PrefixEach(sep, a + b) == PrefixEach(sep, a) + PrefixEach(sep, b)
    decreases |a|
  {
    if a != [] {
      assert (a + b)[0] == a[0];
      assert (a + b)[1..] == a[1..] + b;
      PrefixEachAppend(sep, a[1..], b);
    } else {
      assert a + b == b;
    }
  }
}
