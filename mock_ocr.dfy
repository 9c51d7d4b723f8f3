/** MockOcrService: the sample text used in place of OCR when the OCR engine fails. It is
  * made from the image's file name alone; the file name's string.GetHashCode (randomised
  * per process in .NET) is a parameter. */
module MockOcr {
  import opened Text
  import opened Paths
  import opened Heuristics
  import opened QuestionMeta
  import opened Wrappers

  /** C#'s % on int: the remainder takes the sign of the dividend. */
  function Rem(a: int, b: int): (r: int)
    requires b > 0
    ensures -b < r < b
  {
    if a >= 0 then a % b else -((-a) % b)
  }

  /** Math.Abs */
  function Abs(a: int): nat { if a < 0 then -a else a }

  /** Math.Abs(fileHash % 50) + 1 */
  function QuestionNum(hash: int): nat { Abs(Rem(hash, 50)) + 1 }

  /** Math.Abs(fileHash % 100000) */
  function QuestionId(hash: int): nat { Abs(Rem(hash, 100000)) }

  /** Whatever the hash, the question number lies in 1..50 and the id in 0..99999. */
  lemma MockNumbersInRange(hash: int)
    ensures 1 <= QuestionNum(hash) <= 50
    ensures QuestionId(hash) <= 99999
  {
  }

  const NumberPrefix := "Multiple choices "
  const SampleNote := "\U{26A0} L\U{1AF}U \U{DD}: \U{110}\U{E2}y l\U{E0} D\U{1EEE} LI\U{1EC6}U M\U{1EAA}U, "
    + "kh\U{F4}ng \U{111}\U{1ECD}c t\U{1EEB} \U{1EA3}nh th\U{1EAD}t. "
  const SameResultNote := "\U{26A0} T\U{1EA5}t c\U{1EA3} \U{1EA3}nh s\U{1EBD} cho k\U{1EBF}t qu\U{1EA3} "
    + "gi\U{1ED1}ng nhau n\U{1EBF}u ch\U{1B0}a c\U{E0}i Tesseract OCR."
  const QuestionLine := "The PageModel in " + "Razor Pages is " + "best described as:"
  const OptionA := "A. A combination " + "of Controller " + "and ViewModel"
  const OptionB := "B. A database entity"

  /** The lines of the verbatim template, which ends its lines with LF. */
  function MockLines(num: nat, id: nat, fileName: string): seq<string> {
    [NumberPrefix + NatToString(num) + "/50",
     "[" + NatToString(id) + "]",
     "(Choose 1 answer)",
     QuestionLine,
     OptionA,
     OptionB,
     "C. An Entity Framework class",
     "D. A replacement for HTML",
     "",
     SampleNote,
     SameResultNote,
     "\U{26A0} File: " + fileName]
  }

  /** ExtractTextAsync(imagePath) */
  function ExtractText(imagePath: string, hashCode: string -> int): string {
    var hash := hashCode(FileNameWithoutExtension(imagePath));
    Join("\n", MockLines(QuestionNum(hash), QuestionId(hash), FileName(imagePath)))
  }

  /** The text depends on the file name only, never on the directory or the image. */
  lemma MockDependsOnFileNameOnly(p1: string, p2: string, hashCode: string -> int)
    requires FileName(p1) == FileName(p2)
    ensures ExtractText(p1, hashCode) == ExtractText(p2, hashCode)
  {
  }

  /** The text as its first two lines followed by the rest. */
  lemma MockShape(num: nat, id: nat, fileName: string)
    ensures var ls := MockLines(num, id, fileName);
      Join("\n", ls) == NumberPrefix + NatToString(num) + "/50" + "\n" + "[" + NatToString(id) + "]"
        + "\n" + Join("\n", ls[2..])
  {
    var ls := MockLines(num, id, fileName);
    JoinCons("\n", ls[0], ls[1..]);
    assert [ls[0]] + ls[1..] == ls;
    JoinCons("\n", ls[1], ls[2..]);
    assert [ls[1]] + ls[2..] == ls[1..];
  }

  /** A line with a choice letter, an option mark and more text, and no white space at
    * either end, is a choice line. */
  lemma ChoiceLineOf(s: string)
    requires |s| >= 3 && IsChoiceLetter(s[0]) && IsOptionMark(s[1]) && !IsWhite(s[|s| - 1])
    ensures ChoiceLine(s)
  {
    TrimFixed(s);
    assert !IsWhite(s[|s| - 1]);
  }

  /** Two choice lines in a row count as two choice lines. */
  lemma PairCounts(a: string, b: string)
    requires NoLineBreak(a) && NoLineBreak(b) && ChoiceLine(a) && ChoiceLine(b)
    ensures CountLines(Lines(Join("\n", [a, b])), ChoiceLine) == 2
  {
    LinesOfJoin("\n", [a, b]);
    assert [a, b][1..] == [b];
  }

  /** Two option-like lines in a row count as two choice lines. */
  lemma OptionLikePairCounts(a: string, b: string)
    requires NoLineBreak(a) && |a| >= 3 && IsChoiceLetter(a[0]) && IsOptionMark(a[1]) && !IsWhite(a[|a| - 1])
    requires NoLineBreak(b) && |b| >= 3 && IsChoiceLetter(b[0]) && IsOptionMark(b[1]) && !IsWhite(b[|b| - 1])
    ensures CountLines(Lines(Join("\n", [a, b])), ChoiceLine) == 2
  {
    ChoiceLineOf(a);
    ChoiceLineOf(b);
    PairCounts(a, b);
  }

  /** Two option lines in a row count as two choice lines of the multiple-choice gate. */
  lemma OptionPairCounts()
    ensures CountLines(Lines(Join("\n", [OptionA, OptionB])), ChoiceLine) == 2
  {
    OptionLikePairCounts(OptionA, OptionB);
  }

  /** A text that starts with a non-white character and has one at index k keeps more than k
    * characters when trimmed. */
  lemma TrimLongerThan(s: string, k: nat)
    requires k < |s| && !IsWhite(s[0]) && !IsWhite(s[k])
    ensures |Trim(s)| > k
  {
    assert TrimStart(s) == s;
    TrimEndSpec(s);
  }

  /** A text whose lines five and six are the two first options, whose first line starts
    * with a non-white character and whose first four lines are long enough passes both
    * tests. */
  lemma GatesOfLines(ls: seq<string>)
    requires |ls| >= 7 && ls[4] == OptionA && ls[5] == OptionB
    requires ls[0] != [] && !IsWhite(ls[0][0])
    requires |Join("\n", ls[..4])| >= 19
    ensures HasEnoughOptionsForAi(Join("\n", ls)) && IsLikelyQuestion(Join("\n", ls))
  {
    var text := Join("\n", ls);
    var x, m, y := ls[..4], ls[4..6], ls[6..];
    assert ls == x + (m + y);
    JoinAppend("\n", x, m + y);
    JoinAppend("\n", m, y);
    var jx, jm, jy := Join("\n", x), Join("\n", m), Join("\n", y);
    assert text == jx + ['\n'] + (jm + ['\n'] + jy);
    LinesAroundBreak(jx, '\n', jm + ['\n'] + jy);
    LinesAroundBreak(jm, '\n', jy);
    assert m == [OptionA, OptionB];
    OptionPairCounts();
    CountLinesConcat(Lines(jx), Lines(jm) + Lines(jy), ChoiceLine);
    CountLinesConcat(Lines(jm), Lines(jy), ChoiceLine);
    assert text[0] == ls[0][0] by {
      JoinCons("\n", ls[0], ls[1..]);
      assert [ls[0]] + ls[1..] == ls;
    }
    assert !IsBlank(text);
    assert jm[0] == 'A' by {
      JoinCons("\n", OptionA, [OptionB]);
      assert [OptionA] + [OptionB] == m;
      assert jm == OptionA + "\n" + OptionB;
      assert OptionA[0] == 'A';
    }
    assert text[|jx| + 1] == jm[0];
    TrimLongerThan(text, |jx| + 1);
    LikelyWhenGated(text);
  }

  /** The sample text passes the multiple-choice gate and the question-likeness test, so the
    * OCR retry loop accepts it at the first attempt and the AI is asked about it. */
  lemma MockPassesGates(imagePath: string, hashCode: string -> int)
    ensures HasEnoughOptionsForAi(ExtractText(imagePath, hashCode))
    ensures IsLikelyQuestion(ExtractText(imagePath, hashCode))
  {
    var hash := hashCode(FileNameWithoutExtension(imagePath));
    var ls := MockLines(QuestionNum(hash), QuestionId(hash), FileName(imagePath));
    var x := ls[..4];
    assert |Join("\n", x)| >= 19 by {
      JoinAppend("\n", x[..3], [x[3]]);
      assert x[..3] + [x[3]] == x;
    }
    GatesOfLines(ls);
  }

  /** A text without c, joined with a separator without c, has no c. */
  lemma {:induction false} JoinAvoids(sep: string, parts: seq<string>, c: char)
    requires !HasChar(sep, c) && forall k :: 0 <= k < |parts| ==> !HasChar(parts[k], c)
    ensures !HasChar(Join(sep, parts), c)
    decreases |parts|
  {
    if |parts| > 1 {
      JoinAvoids(sep, parts[1..], c);
      var j := Join(sep, parts[1..]);
      var r := parts[0] + sep + j;
      assert forall i :: 0 <= i < |r| ==> r[i] != c by {
        forall i | 0 <= i < |r|
          ensures r[i] != c
        {
          if i < |parts[0]| {
            assert r[i] == parts[0][i];
          } else if i < |parts[0]| + |sep| {
            assert r[i] == sep[i - |parts[0]|];
          } else {
            assert r[i] == j[i - |parts[0]| - |sep|];
          }
        }
      }
    }
  }

  lemma RemoveSpacesKeeps(s: string)
    requires forall i :: 0 <= i < |s| ==> s[i] != ' '
    ensures RemoveSpaces(s) == s
  {
    if s != [] {
      RemoveSpacesKeeps(s[1..]);
    }
  }

  /** No match starts inside a prefix without digits. */
  lemma NoNumberBefore(t: string, n: nat)
    requires n <= |t| && forall k :: 0 <= k < n ==> !IsDecimalDigit(t[k])
    ensures forall k :: 0 <= k < n ==> NumberMatchAt(t, k).None?
  {
    forall k | 0 <= k < n
      ensures NumberMatchAt(t, k).None?
    {
      assert DigitRunEnd(t, k) == k;
    }
  }

  /** The match at the start of "{digits}/50" followed by a line break. */
  lemma NumberAt(t: string, i: nat, digits: string)
    requires 1 <= |digits| <= 3 && forall k :: 0 <= k < |digits| ==> IsDigit(digits[k])
    requires 0 < i && i + |digits| + 4 <= |t| && t[i - 1] == ' '
    requires t[i..i + |digits| + 4] == digits + "/50\n"
    ensures NumberMatchAt(t, i) == Some(i + |digits| + 3)
  {
    var d1 := i + |digits|;
    assert forall k :: i <= k < d1 ==> t[k] == t[i..i + |digits| + 4][k - i];
    assert t[d1] == t[i..i + |digits| + 4][|digits|];
    assert t[d1 + 1] == t[i..i + |digits| + 4][|digits| + 1];
    assert t[d1 + 2] == t[i..i + |digits| + 4][|digits| + 2];
    assert t[d1 + 3] == t[i..i + |digits| + 4][|digits| + 3];
    assert DigitRunEnd(t, i) == d1;
    assert WhiteRunEnd(t, d1) == d1;
    assert WhiteRunEnd(t, d1 + 1) == d1 + 1;
    assert DigitRunEnd(t, d1 + 1) == d1 + 3;
  }

  lemma PrefixHasNoDigit()
    ensures |NumberPrefix| == 17 && NumberPrefix[16] == ' '
    ensures forall k :: 0 <= k < 17 ==> !IsDecimalDigit(NumberPrefix[k]) && NumberPrefix[k] != '['
  {
  }

  /** \b(\d{1,3}\s*[:：/]\s*\d{1,3})\b first matches the number that follows a prefix
    * without digits ending in a space. */
  lemma NumberAfterPrefix(pre: string, digits: string, rest: string)
    requires pre != [] && pre[|pre| - 1] == ' ' && forall k :: 0 <= k < |pre| ==> !IsDecimalDigit(pre[k])
    requires 1 <= |digits| <= 3 && forall i :: 0 <= i < |digits| ==> IsDigit(digits[i])
    requires rest != [] && rest[0] == '\n'
    ensures var t := pre + digits + "/50" + rest;
      FindNumber(t, 0) == Some((|pre|, |pre| + |digits| + 3))
      && NumberText(t, |pre|) == digits + "/50"
  {
    var t := pre + digits + "/50" + rest;
    var n := |pre|;
    assert forall k :: 0 <= k < n ==> t[k] == pre[k];
    assert t[n..n + |digits| + 4] == digits + "/50\n";
    NumberFoundAt(t, n, digits);
    NumberTextAt(t, n, digits);
  }

  /** The number found in a text whose digit-free start is followed by "{digits}/50" and a
    * line break. */
  lemma NumberFoundAt(t: string, n: nat, digits: string)
    requires 0 < n && n + |digits| + 4 <= |t| && t[n - 1] == ' '
    requires forall k :: 0 <= k < n ==> !IsDecimalDigit(t[k])
    requires 1 <= |digits| <= 3 && forall i :: 0 <= i < |digits| ==> IsDigit(digits[i])
    requires t[n..n + |digits| + 4] == digits + "/50\n"
    ensures NumberMatchAt(t, n) == Some(n + |digits| + 3)
    ensures FindNumber(t, 0) == Some((n, n + |digits| + 3))
  {
    NoNumberBefore(t, n);
    NumberAt(t, n, digits);
    FirstNumberAt(t, 0, n, n + |digits| + 3);
  }

  /** FindNumber from a position returns the first match after it. */
  lemma FirstNumberAt(t: string, from: nat, n: nat, e: nat)
    requires from <= n <= |t| && NumberMatchAt(t, n) == Some(e)
    requires forall k :: from <= k < n ==> NumberMatchAt(t, k).None?
    ensures FindNumber(t, from) == Some((n, e))
  {
    forall k | from <= k < n ensures !NumberStartsIn(t)(k) {
      assert NumberMatchAt(t, k).None?;
    }
    LeftmostAt(NumberStartsIn(t), from, |t|, n);
  }

  /** The captured text of the match at n is "{digits}/50". */
  lemma NumberTextAt(t: string, n: nat, digits: string)
    requires n + |digits| + 4 <= |t|
    requires 1 <= |digits| <= 3 && forall i :: 0 <= i < |digits| ==> IsDigit(digits[i])
    requires t[n..n + |digits| + 4] == digits + "/50\n"
    requires NumberMatchAt(t, n) == Some(n + |digits| + 3)
    ensures NumberText(t, n) == digits + "/50"
  {
    var d := digits + "/50";
    assert t[n..n + |digits| + 3] == t[n..n + |digits| + 4][..|digits| + 3] == d;
    assert forall i :: 0 <= i < |d| ==> d[i] != ' ' by {
      forall i | 0 <= i < |d| ensures d[i] != ' ' {
        if i < |digits| {
          assert d[i] == digits[i];
        }
      }
    }
    RemoveSpacesKeeps(d);
  }

  /** \[\s*(\d{3,})\s*\] on a text whose first '[' opens "[{digits}]": it matches there
    * when there are at least three digits; with fewer, and no '[' after it, nowhere. */
  lemma IdAfterPrefix(pre: string, digits: string, rest: string)
    requires !HasChar(pre, '[')
    requires digits != [] && forall i :: 0 <= i < |digits| ==> IsDigit(digits[i])
    ensures var t := pre + "[" + digits + "]" + rest;
      |digits| >= 3 ==> FindId(t, 0) == Some(|pre|) && IdText(t, |pre|) == "[" + digits + "]"
    ensures var t := pre + "[" + digits + "]" + rest;
      |digits| < 3 && !HasChar(rest, '[') ==> FindId(t, 0).None?
  {
    var t := pre + "[" + digits + "]" + rest;
    var n := |pre|;
    var e := n + 1 + |digits|;
    assert forall k :: 0 <= k < n ==> t[k] == pre[k];
    assert t[n + 1..e] == digits;
    assert forall k :: n < k < e ==> t[k] == digits[k - n - 1];
    assert t[n] == '[' && t[e] == ']';
    NoBracketNoId(t, 0, n);
    if |digits| >= 3 {
      BracketedIdAt(t, n, e);
      FirstIdAt(t, 0, n);
    } else if !HasChar(rest, '[') {
      assert forall k :: e < k < |t| ==> t[k] == rest[k - e - 1];
      ShortIdAt(t, n, e);
      NoBracketNoId(t, e, |t|);
      assert forall k :: n < k <= e ==> IdMatchAt(t, k).None? by {
        forall k | n < k <= e ensures IdMatchAt(t, k).None? {
          assert t[k] == (if k == e then ']' else digits[k - n - 1]);
        }
      }
      FindIdNone(t, 0);
    }
  }

  /** No id match starts where there is no '['. */
  lemma NoBracketNoId(t: string, from: nat, to: nat)
    requires from <= to <= |t|
    requires forall k :: from <= k < to ==> t[k] != '['
    ensures forall k :: from <= k < to ==> IdMatchAt(t, k).None?
  {
  }

  /** The digits between a '[' at n and a ']' at e, three or more of them, are the id. */
  lemma BracketedIdAt(t: string, n: nat, e: nat)
    requires n + 4 <= e < |t| && t[n] == '[' && t[e] == ']'
    requires forall k :: n < k < e ==> IsDigit(t[k])
    ensures IdMatchAt(t, n) == Some((n + 1, e))
    ensures IdText(t, n) == "[" + t[n + 1..e] + "]"
  {
    assert WhiteRunEnd(t, n + 1) == n + 1;
    assert DigitRunEnd(t, n + 1) == e;
    assert WhiteRunEnd(t, e) == e;
  }

  /** Fewer than three digits between '[' and ']' are no id. */
  lemma ShortIdAt(t: string, n: nat, e: nat)
    requires n < e < n + 4 && e < |t| && t[n] == '[' && t[e] == ']'
    requires forall k :: n < k < e ==> IsDigit(t[k])
    ensures IdMatchAt(t, n).None?
  {
    assert WhiteRunEnd(t, n + 1) == n + 1;
    assert DigitRunEnd(t, n + 1) == e;
  }

  /** FindId from a position returns the first match after it. */
  lemma FirstIdAt(t: string, from: nat, n: nat)
    requires from <= n <= |t| && IdMatchAt(t, n).Some?
    requires forall k :: from <= k < n ==> IdMatchAt(t, k).None?
    ensures FindId(t, from) == Some(n)
  {
    forall k | from <= k < n ensures !IdStartsIn(t)(k) {
      assert IdMatchAt(t, k).None?;
    }
    LeftmostAt(IdStartsIn(t), from, |t|, n);
  }

  /** FindId finds nothing in a text without a match. */
  lemma FindIdNone(t: string, from: nat)
    requires from <= |t|
    requires forall k :: from <= k <= |t| ==> IdMatchAt(t, k).None?
    ensures FindId(t, from).None?
  {
    forall k | from <= k <= |t| ensures !IdStartsIn(t)(k) {
      assert IdMatchAt(t, k).None?;
    }
  }

  /** Two texts without a character make one without it. */
  lemma AvoidsConcat(a: string, b: string, c: char)
    requires !HasChar(a, c) && !HasChar(b, c)
    ensures !HasChar(a + b, c)
  {
    forall i | 0 <= i < |a + b|
      ensures (a + b)[i] != c
    {
      if i >= |a| {
        assert (a + b)[i] == b[i - |a|];
      }
    }
  }

  lemma QuestionLineAvoidsBracket()
    ensures !HasChar(QuestionLine, '[')
  {
    var a, b, c := "The PageModel in ", "Razor Pages is ", "best described as:";
    assert !HasChar(a, '[') && !HasChar(b, '[') && !HasChar(c, '[');
    AvoidsConcat(a, b, '[');
    AvoidsConcat(a + b, c, '[');
  }

  lemma OptionALineAvoidsBracket()
    ensures !HasChar(OptionA, '[')
  {
    var a, b, c := "A. A combination ", "of Controller ", "and ViewModel";
    assert !HasChar(a, '[') && !HasChar(b, '[') && !HasChar(c, '[');
    AvoidsConcat(a, b, '[');
    AvoidsConcat(a + b, c, '[');
  }

  /** The template's fixed lines after the id line hold no '['. */
  lemma FixedLinesAvoidBracket()
    ensures !HasChar("(Choose 1 answer)", '[')
    ensures !HasChar(QuestionLine, '[')
    ensures !HasChar(OptionA, '[') && !HasChar(OptionB, '[')
    ensures !HasChar("C. An Entity Framework class", '[') && !HasChar("D. A replacement for HTML", '[')
    ensures !HasChar(SampleNote, '[') && !HasChar(SameResultNote, '[')
    ensures !HasChar("\U{26A0} File: ", '[')
  {
    QuestionLineAvoidsBracket();
    OptionALineAvoidsBracket();
  }

  /** What follows the id line holds no '[' unless the file name does. */
  lemma TailAvoidsBracket(num: nat, id: nat, fileName: string)
    requires !HasChar(fileName, '[')
    ensures !HasChar("\n" + Join("\n", MockLines(num, id, fileName)[2..]), '[')
  {
    var ls := MockLines(num, id, fileName)[2..];
    FixedLinesAvoidBracket();
    AvoidsConcat("\U{26A0} File: ", fileName, '[');
    assert forall k :: 0 <= k < |ls| ==> !HasChar(ls[k], '[');
    JoinAvoids("\n", ls, '[');
    AvoidsConcat("\n", Join("\n", ls), '[');
  }

  /** The first '[' of "{pre}{digits}/50\n[" is its last character. */
  lemma HeaderAvoidsBracket(pre: string, digits: string)
    requires forall k :: 0 <= k < |pre| ==> pre[k] != '['
    requires forall i :: 0 <= i < |digits| ==> IsDigit(digits[i])
    ensures !HasChar(pre + digits + "/50" + "\n", '[')
  {
    var head := pre + digits + "/50" + "\n";
    forall i | 0 <= i < |head|
      ensures head[i] != '['
    {
      if |pre| <= i < |pre| + |digits| {
        assert head[i] == digits[i - |pre|];
      } else if i < |pre| {
        assert head[i] == pre[i];
      }
    }
  }

  /** ExtractQuestionMeta on a text made of a number line "{pre}{digits}/50" and an id line
    * "[{id}]" followed by more lines. */
  lemma MetaOfHeader(pre: string, digits: string, id: string, tail: string)
    requires pre != [] && pre[|pre| - 1] == ' ' && !IsWhite(pre[0])
    requires forall k :: 0 <= k < |pre| ==> !IsDecimalDigit(pre[k]) && pre[k] != '['
    requires 1 <= |digits| <= 3 && forall i :: 0 <= i < |digits| ==> IsDigit(digits[i])
    requires id != [] && forall i :: 0 <= i < |id| ==> IsDigit(id[i])
    ensures var m := ExtractQuestionMeta(pre + digits + "/50" + "\n" + "[" + id + "]" + "\n" + tail);
      m.number == Some(digits + "/50")
      && (|id| >= 3 ==> m.id == Some("[" + id + "]"))
      && (|id| < 3 && !HasChar("\n" + tail, '[') ==> m.id.None?)
  {
    var head := pre + digits + "/50" + "\n";
    var t := head + "[" + id + "]" + ("\n" + tail);
    var rest := "\n" + "[" + id + "]" + "\n" + tail;
    assert t == pre + digits + "/50" + rest;
    assert t == pre + digits + "/50" + "\n" + "[" + id + "]" + "\n" + tail;
    assert !IsBlank(t) by {
      assert t[0] == pre[0];
    }
    var m := ExtractQuestionMeta(t);
    assert m.number == Some(digits + "/50") by {
      NumberAfterPrefix(pre, digits, rest);
    }
    assert (|id| >= 3 ==> m.id == Some("[" + id + "]")) && (|id| < 3 && !HasChar("\n" + tail, '[') ==> m.id.None?) by {
      HeaderAvoidsBracket(pre, digits);
      IdAfterPrefix(head, id, "\n" + tail);
    }
  }

  /** The question number and id ExtractQuestionMeta reads back from the mock text: the number
    * line always, the id line exactly when the id has three digits or more (the pattern asks for
    * at least three), provided the file name printed at the end brings no '[' of its own. */
  lemma MockMeta(num: nat, id: nat, fileName: string)
    requires 1 <= num <= 50
    ensures ExtractQuestionMeta(Join("\n", MockLines(num, id, fileName))).number
      == Some(NatToString(num) + "/50")
    ensures id >= 100 ==>
      ExtractQuestionMeta(Join("\n", MockLines(num, id, fileName))).id == Some("[" + NatToString(id) + "]")
    ensures id < 100 && !HasChar(fileName, '[') ==>
      ExtractQuestionMeta(Join("\n", MockLines(num, id, fileName))).id.None?
  {
    MockShape(num, id, fileName);
    NatToStringLength(num);
    NatToStringLength(id);
    PrefixHasNoDigit();
    assert !IsWhite(NumberPrefix[0]);
    MetaOfHeader(NumberPrefix, NatToString(num), NatToString(id), Join("\n", MockLines(num, id, fileName)[2..]));
    if id < 100 && !HasChar(fileName, '[') {
      TailAvoidsBracket(num, id, fileName);
    }
  }
}
