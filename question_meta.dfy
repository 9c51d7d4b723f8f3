/** ExtractQuestionMeta: the question number ("55:33", "12/50") and the question id
  * ("[163119]") that exam screens print, found by two regular expressions. Each expression is
  * modelled by the language it accepts at a position, with the backtracking resolved: every
  * run of digits or white space in a match has to be maximal, so a match is determined by its
  * start, and Regex.Match returns the leftmost start. */
module QuestionMeta {
  import opened Text
  import opened Wrappers

  /** The end of the run of \d that starts at i. */
  function DigitRunEnd(s: string, i: nat): (j: nat)
    requires i <= |s|
    ensures i <= j <= |s|
    ensures forall k :: i <= k < j ==> IsDecimalDigit(s[k])
    ensures j == |s| || !IsDecimalDigit(s[j])
    decreases |s| - i
  {
    if i < |s| && IsDecimalDigit(s[i]) then DigitRunEnd(s, i + 1) else i
  }

  /** The end of the run of \s that starts at i. */
  function WhiteRunEnd(s: string, i: nat): (j: nat)
    requires i <= |s|
    ensures i <= j <= |s|
    ensures forall k :: i <= k < j ==> IsWhite(s[k])
    ensures j == |s| || !IsWhite(s[j])
    decreases |s| - i
  {
    if i < |s| && IsWhite(s[i]) then WhiteRunEnd(s, i + 1) else i
  }

  /** \b in front of a word character at i. */
  predicate BoundaryBefore(s: string, i: nat)
    requires i <= |s|
  {
    i == 0 || IsNonWordChar(s[i - 1])
  }

  /** \b after a word character at j - 1. */
  predicate BoundaryAfter(s: string, j: nat)
    requires j <= |s|
  {
    j == |s| || IsNonWordChar(s[j])
  }

  /** The class [:：/] */
  predicate IsNumberSeparator(c: char) { c == ':' || c == '\U{FF1A}' || c == '/' }

  /** Where a match of \b(\d{1,3}\s*[:：/]\s*\d{1,3})\b that starts at i ends, if one does. */
  function NumberMatchAt(s: string, i: nat): (r: Option<nat>)
    requires i <= |s|
    ensures r.Some? ==> i < r.value <= |s|
  {
    var d1 := DigitRunEnd(s, i);
    if d1 == i || d1 - i > 3 || !BoundaryBefore(s, i) then None
    else
      var w1 := WhiteRunEnd(s, d1);
      if w1 == |s| || !IsNumberSeparator(s[w1]) then None
      else
        var w2 := WhiteRunEnd(s, w1 + 1);
        var d2 := DigitRunEnd(s, w2);
        if d2 == w2 || d2 - w2 > 3 || !BoundaryAfter(s, d2) then None
        else Some(d2)
  }

  /** The first position in from..end where found holds, scanning left to right as
    * Regex.Match does. */
  function Leftmost(found: nat -> bool, from: nat, end: nat): (r: Option<nat>)
    requires from <= end
    ensures r.Some? ==> from <= r.value <= end && found(r.value)
    decreases end - from
  {
    if found(from) then Some(from)
    else if from == end then None
    else Leftmost(found, from + 1, end)
  }

  /** Leftmost returns the first position that qualifies, and nothing only when none does. */
  lemma {:induction false} LeftmostIsFirst(found: nat -> bool, from: nat, end: nat)
    requires from <= end
    ensures var r := Leftmost(found, from, end);
      && (r.Some? ==> forall k :: from <= k < r.value ==> !found(k))
      && (r.None? ==> forall k :: from <= k <= end ==> !found(k))
    decreases end - from
  {
    if !found(from) && from < end {
      LeftmostIsFirst(found, from + 1, end);
    }
  }

  /** Leftmost returns n when n qualifies and nothing before it does. */
  lemma LeftmostAt(found: nat -> bool, from: nat, end: nat, n: nat)
    requires from <= n <= end && found(n)
    requires forall k :: from <= k < n ==> !found(k)
    ensures Leftmost(found, from, end) == Some(n)
  {
    LeftmostIsFirst(found, from, end);
  }

  /** A match of the number expression starts at k. */
  function NumberStartsIn(s: string): nat -> bool {
    (k: nat) => k <= |s| && NumberMatchAt(s, k).Some?
  }

  /** The leftmost match at or after from, as (start, end). */
  function FindNumber(s: string, from: nat): (r: Option<(nat, nat)>)
    requires from <= |s|
    ensures r.Some? ==> from <= r.value.0 < r.value.1 <= |s| && NumberMatchAt(s, r.value.0) == Some(r.value.1)
  {
    match Leftmost(NumberStartsIn(s), from, |s|)
    case None => None
    case Some(k) => Some((k, NumberMatchAt(s, k).value))
  }

  /** Where a match of \[\s*(\d{3,})\s*\] that starts at i has its digits, if one does. */
  function IdMatchAt(s: string, i: nat): (r: Option<(nat, nat)>)
    requires i <= |s|
    ensures r.Some? ==> i < r.value.0 && r.value.0 + 3 <= r.value.1 < |s|
  {
    if i == |s| || s[i] != '[' then None
    else
      var w1 := WhiteRunEnd(s, i + 1);
      var d := DigitRunEnd(s, w1);
      if d - w1 < 3 then None
      else
        var w2 := WhiteRunEnd(s, d);
        if w2 == |s| || s[w2] != ']' then None
        else Some((w1, d))
  }

  /** A match of the id expression starts at k. */
  function IdStartsIn(s: string): nat -> bool {
    (k: nat) => k <= |s| && IdMatchAt(s, k).Some?
  }

  /** The start of the leftmost id match at or after from. */
  function FindId(s: string, from: nat): (r: Option<nat>)
    requires from <= |s|
    ensures r.Some? ==> from <= r.value < |s| && IdMatchAt(s, r.value).Some?
  {
    Leftmost(IdStartsIn(s), from, |s|)
  }

  /** s.Replace(" ", string.Empty) */
  function RemoveSpaces(s: string): (r: string)
    ensures forall k :: 0 <= k < |r| ==> r[k] != ' '
    ensures |r| <= |s|
  {
    if s == [] then []
    else (if s[0] == ' ' then [] else [s[0]]) + RemoveSpaces(s[1..])
  }

  /** The captured number with its spaces removed. */
  function NumberText(s: string, i: nat): (r: string)
    requires i <= |s| && NumberMatchAt(s, i).Some?
    ensures r != [] && forall k :: 0 <= k < |r| ==> r[k] != ' '
  {
    var e := NumberMatchAt(s, i).value;
    var t := s[i..e];
    assert IsDecimalDigit(t[0]);
    assert RemoveSpaces(t) == [t[0]] + RemoveSpaces(t[1..]);
    RemoveSpaces(t)
  }

  /** The captured id digits in brackets. */
  function IdText(s: string, i: nat): (r: string)
    requires i <= |s| && IdMatchAt(s, i).Some?
    ensures IsIdForm(r)
  {
    var b := IdMatchAt(s, i).value;
    var r := "[" + s[b.0..b.1] + "]";
    assert forall k :: 1 <= k < |r| - 1 ==> r[k] == s[b.0 + k - 1];
    r
  }

  /** The (QuestionNumber, QuestionId) pair; None stands for null. */
  datatype Meta = Meta(number: Option<string>, id: Option<string>)

  /** ExtractQuestionMeta: a found number has no spaces, a found id is a bracketed run of at
    * least three digits; blank text has neither. */
  function ExtractQuestionMeta(ocr: string): (m: Meta)
    ensures IsBlank(ocr) ==> m == Meta(None, None)
    ensures m.number.Some? ==>
      m.number.value != [] && forall k :: 0 <= k < |m.number.value| ==> m.number.value[k] != ' '
    ensures m.id.Some? ==> IsIdForm(m.id.value)
  {
    if IsBlank(ocr) then Meta(None, None)
    else
      var number := match FindNumber(ocr, 0)
        case None => None
        case Some(b) => Some(NumberText(ocr, b.0));
      var id := match FindId(ocr, 0)
        case None => None
        case Some(i) => Some(IdText(ocr, i));
      Meta(number, id)
  }

  /** "[" + at least three digits + "]" */
  predicate IsIdForm(s: string) {
    |s| >= 5 && s[0] == '[' && s[|s| - 1] == ']'
    && forall k :: 1 <= k < |s| - 1 ==> IsDecimalDigit(s[k])
  }
}
