/** Task priorities and the text-to-priority conversion used by the `add`
    command. */
module Priorities {

  datatype Priority = Low | Medium | High

  /** The tag under which a priority is stored and displayed. */
  function Name(p: Priority): string
  {
    match p
    case Low => "Low"
    case Medium => "Medium"
    case High => "High"
  }

  /** Lower-casing of one character, on the ASCII letters: no upper-case
      ASCII letter is left. */
  function LowerChar(c: char): (d: char)
    ensures !('A' <= d <= 'Z')
  {
    if 'A' <= c <= 'Z' then (c as int - 'A' as int + 'a' as int) as char else c
  }

  /** Lower-casing of a whole text, character by character. */
  function Lower(s: string): (r: string)
    ensures |r| == |s|
    ensures forall i :: 0 <= i < |s| ==> r[i] == LowerChar(s[i])
  {
    if s == [] then [] else [LowerChar(s[0])] + Lower(s[1..])
  }

  /** Lower-casing an already lowered text changes nothing. */
  lemma LowerIdempotent(s: string)
    ensures Lower(Lower(s)) == Lower(s)
  {
  }

  /** Two texts that differ at most in the case of their letters. */
  predicate SameIgnoringCase(s: string, t: string)
  {
    |s| == |t| && forall i :: 0 <= i < |s| ==> LowerChar(s[i]) == LowerChar(t[i])
  }

  /** The text names one of the three priorities, in any case. */
  predicate IsPriorityWord(s: string)
  {
    var l := Lower(s);
    l == "low" || l == "medium" || l == "high"
  }

  /** Conversion from the text given on the command line; any text that does
      not name a priority falls back to Medium (with a warning, which is
      `!IsPriorityWord(s)`). */
  function ParsePriority(s: string): (p: Priority)
    ensures p == Low <==> Lower(s) == "low"
    ensures p == High <==> Lower(s) == "high"
    ensures p == Medium <==> Lower(s) == "medium" || !IsPriorityWord(s)
  {
    match Lower(s)
    case "low" => Low
    case "medium" => Medium
    case "high" => High
    case _ => Medium
  }

  /** Parsing looks at the text only up to the case of its letters. */
  lemma ParseIgnoresCase(s: string, t: string)
    requires SameIgnoringCase(s, t)
    ensures ParsePriority(s) == ParsePriority(t)
    ensures IsPriorityWord(s) == IsPriorityWord(t)
  {
  }

  /** Every priority's own tag, in its original, lower or upper case, parses
      back to that priority without a warning. */
  lemma ParseName(p: Priority, s: string)
    requires SameIgnoringCase(s, Name(p))
    ensures ParsePriority(s) == p
    ensures IsPriorityWord(s)
  {
  }
}
