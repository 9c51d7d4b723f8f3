/** The text heuristics of the capture pipeline: near-duplicate detection of OCR text, the
  * question-likeness test of the OCR retry loop, the multiple-choice gate in front of the AI
  * call, the extraction of the question block from noisy OCR output and the coverage ratio
  * that decides whether an AI answer is kept.
  *
  * Every double the source compares against a threshold is a quotient of two counts; it is
  * kept here as the pair of counts and compared by cross-multiplication. */
module Heuristics {
  import opened Text
  import opened Wrappers
  import opened OptionMaps
  import opened Answers

  /** Environment.NewLine of the Windows build. */
  const NewLine: string := "\r\n"

  /** The double num / den; a den of 0 stands for the 0 the source returns early. */
  datatype Ratio = Ratio(num: nat, den: nat)

  /** num / den >= p / q. */
  predicate AtLeast(r: Ratio, p: nat, q: nat)
    requires q > 0
  {
    if r.den == 0 then p == 0 else q * r.num >= p * r.den
  }

  // ---------------------------------------------------------------------------
  // Near-duplicate OCR text
  // ---------------------------------------------------------------------------

  /** NormalizeText: every white-space run becomes one space, then trim and lower-case. */
  function NormalizeText(s: string): string {
    Lower(Trim(CollapseWhite(s)))
  }

  /** The token set of CalculateSimilarity: the word runs of two characters or more, compared
    * ignoring case (each kept in its upper-case form). */
  function SimilarityTokens(s: string): set<string> {
    set t | t in Words(s) && |t| > 1 :: Upper(t)
  }

  /** CalculateSimilarity: the Jaccard index |A ∩ B| / |A ∪ B| of the two token sets, 0 when
    * either text is blank or has no token. */
  function CalculateSimilarity(a: string, b: string): (r: Ratio)
    ensures r.num <= r.den
    ensures r.den > 0 <==>
      !IsBlank(a) && !IsBlank(b) && SimilarityTokens(a) != {} && SimilarityTokens(b) != {}
  {
    if IsBlank(a) || IsBlank(b) then Ratio(0, 0)
    else
      var ta, tb := SimilarityTokens(a), SimilarityTokens(b);
      if ta == {} || tb == {} then Ratio(0, 0)
      else
        assert ta * tb <= ta + tb;
        SubsetCard(ta * tb, ta + tb);
        var some :| some in ta;
        assert some in ta + tb;
        Ratio(|ta * tb|, |ta + tb|)
  }

  lemma SubsetCard<T>(a: set<T>, b: set<T>)
    requires a <= b
    ensures |a| <= |b|
  {
    assert b == a + (b - a);
  }

  /** IsDuplicateOcrText's test against one earlier text: similarity of the normalised texts
    * of at least 0.97. */
  predicate IsNearDuplicate(current: string, earlier: string) {
    AtLeast(CalculateSimilarity(NormalizeText(current), NormalizeText(earlier)), 97, 100)
  }

  /** The similarity does not depend on the order of its arguments. */
  lemma SimilaritySymmetric(a: string, b: string)
    ensures CalculateSimilarity(a, b) == CalculateSimilarity(b, a)
  {
    var ta, tb := SimilarityTokens(a), SimilarityTokens(b);
    assert ta * tb == tb * ta;
    assert ta + tb == tb + ta;
  }

  /** A text with at least one token of two or more characters is a near duplicate of itself;
    * a text without one is a near duplicate of nothing. */
  lemma NearDuplicateOfItself(s: string)
    ensures IsNearDuplicate(s, s) <==> SimilarityTokens(NormalizeText(s)) != {}
  {
    var n := NormalizeText(s);
    var t := SimilarityTokens(n);
    if t != {} {
      var x :| x in t;
      var w :| w in Words(n) && |w| > 1 && Upper(w) == x;
      assert !IsBlank(n) by {
        var k :| 0 <= k < |Words(n)| && Words(n)[k] == w;
        NonBlankOfWord(n, k);
      }
      assert t * t == t && t + t == t;
    }
  }

  /** A word run holds a word character, so a text with a word is not blank. */
  lemma NonBlankOfWord(s: string, k: nat)
    requires k < |Words(s)|
    ensures !IsBlank(s)
  {
    var w := Words(s)[k];
    assert w != [];
    if IsBlank(s) {
      WordsOfBlank(s);
    }
  }

  /** A blank text has no word. */
  lemma WordsOfBlank(s: string)
    requires IsBlank(s)
    ensures Words(s) == []
  {
    SplitAllSep(s, IsNonWordChar);
    RemoveAllEmpty(SplitOn(s, IsNonWordChar));
  }

  lemma {:induction false} RemoveAllEmpty(ps: seq<string>)
    requires forall k :: 0 <= k < |ps| ==> ps[k] == []
    ensures RemoveEmpty(ps) == []
  {
    if ps != [] {
      RemoveAllEmpty(ps[1..]);
    }
  }

  /** Texts whose token sets share nothing are never near duplicates. */
  lemma DisjointNotSimilar(a: string, b: string)
    requires SimilarityTokens(a) !! SimilarityTokens(b)
    ensures !AtLeast(CalculateSimilarity(a, b), 97, 100)
  {
    assert SimilarityTokens(a) * SimilarityTokens(b) == {};
  }

  // ---------------------------------------------------------------------------
  // The multiple-choice gate and the question-likeness test
  // ---------------------------------------------------------------------------

  predicate IsChoiceLetter(c: char) { 'A' <= c <= 'D' || 'a' <= c <= 'd' }
  predicate IsOptionMark(c: char) { c == '.' || c == ')' || c == ':' }

  /** ^[A-Da-d][\.\):]\s*\S+ : a choice letter, a mark, then some non-white text. */
  predicate IsChoiceLine(t: string) {
    |t| >= 2 && IsChoiceLetter(t[0]) && IsOptionMark(t[1])
    && exists k :: 2 <= k < |t| && !IsWhite(t[k])
  }

  predicate ChoiceLine(l: string) { IsChoiceLine(Trim(l)) }

  /** HasEnoughOptionsForAi: at least two non-empty lines are choice lines once trimmed. */
  predicate HasEnoughOptionsForAi(ocr: string) {
    !IsBlank(ocr) && CountLines(Lines(ocr), ChoiceLine) >= 2
  }

  /** The option test of IsLikelyQuestion and ExtractQuestionBlock: any letter followed by
    * '.', ')' or ':', with nothing required after it. */
  predicate IsLetterOptionLine(t: string) { |t| >= 2 && IsLetter(t[0]) && IsOptionMark(t[1]) }

  predicate LetterOptionLine(l: string) { IsLetterOptionLine(Trim(l)) }

  /** IsLikelyQuestion: two of the three signs — a question mark, two option lines, twenty
    * characters once trimmed. */
  predicate IsLikelyQuestion(ocr: string) {
    if IsBlank(ocr) then false
    else
      var t := Trim(ocr);
      var hasMark := HasChar(t, '?');
      var hasOptions := CountLines(Lines(t), LetterOptionLine) >= 2;
      var longEnough := |t| >= 20;
      (hasMark && hasOptions) || (hasOptions && longEnough) || (hasMark && longEnough)
  }

  /** A line property that only looks at the trimmed line and fails on an empty one. */
  ghost predicate TrimInsensitive(p: string -> bool) {
    (forall l {:trigger p(Trim(l))} :: p(l) == p(Trim(l))) && !p([])
  }

  lemma ChoiceLineTrimInsensitive()
    ensures TrimInsensitive(ChoiceLine)
  {
    forall l ensures ChoiceLine(l) == ChoiceLine(Trim(l)) {
      TrimIdempotent(l);
    }
  }

  /** Trailing white space does not change the trim. */
  lemma {:induction false} TrimBeforeWhite(s: string, c: char)
    requires IsWhite(c)
    ensures Trim(s + [c]) == Trim(s)
  {
    if s == [] {
      assert s + [c] == [c];
      assert [c][1..] == [];
    } else if IsWhite(s[0]) {
      assert (s + [c])[1..] == s[1..] + [c];
      TrimBeforeWhite(s[1..], c);
    } else {
      assert (s + [c])[..|s|] == s;
    }
  }

  /** Splitting a text with one more ordinary character at the end extends its last piece. */
  lemma {:induction false} SplitSnocPlain(u: string, c: char, isSep: char -> bool)
    requires !isSep(c)
    ensures SplitOn(u + [c], isSep) == ExtendLast(SplitOn(u, isSep), c)
  {
    if u == [] {
      var e: string := [];
      assert u + [c] == [c] && [c][1..] == e && [c] + e == [c];
      assert SplitOn(e, isSep) == [e] && [e][1..] == [];
      assert SplitOn([c], isSep) == [[c]];
      assert ExtendLast([e], c) == [[c]];
    } else {
      var r1 := SplitOn(u[1..], isSep);
      assert (u + [c])[1..] == u[1..] + [c];
      SplitSnocPlain(u[1..], c, isSep);
      if isSep(u[0]) {
        ExtendLastEmptyHead(r1, c);
      } else {
        ExtendLastJoinHead(u[0], r1, c);
      }
    }
  }

  /** The pieces with the last one extended by c. */
  function ExtendLast(r: seq<string>, c: char): seq<string>
    requires |r| >= 1
  {
    r[..|r| - 1] + [r[|r| - 1] + [c]]
  }

  lemma ExtendLastEmptyHead(r: seq<string>, c: char)
    requires |r| >= 1
    ensures ExtendLast([[]] + r, c) == [[]] + ExtendLast(r, c)
  {
    assert ([[]] + r)[..|r|] == [[]] + r[..|r| - 1];
  }

  lemma ExtendLastJoinHead(a: char, r: seq<string>, c: char)
    requires |r| >= 1
    ensures var e := ExtendLast(r, c);
      ExtendLast([[a] + r[0]] + r[1..], c) == [[a] + e[0]] + e[1..]
  {
    var e := ExtendLast(r, c);
    var x := [[a] + r[0]] + r[1..];
    if |r| == 1 {
      assert x == [[a] + r[0]];
      assert e == [r[0] + [c]];
      assert [a] + (r[0] + [c]) == ([a] + r[0]) + [c];
    } else {
      assert e[0] == r[0] && e[1..] == r[1..|r| - 1] + [r[|r| - 1] + [c]];
      assert x[..|x| - 1] == [[a] + r[0]] + r[1..|r| - 1];
    }
  }

  lemma RemoveEmptySingle(l: string)
    ensures RemoveEmpty([l]) == (if l == [] then [] else [l])
  {
    assert [l][1..] == [];
  }

  lemma CountLinesSingle(l: string, p: string -> bool)
    ensures CountLines([l], p) == if p(l) then 1 else 0
  {
    assert [l][1..] == [];
  }

  /** Empty pieces never count when the property fails on the empty line. */
  lemma {:induction false} CountRemoveEmpty(ps: seq<string>, p: string -> bool)
    requires !p([])
    ensures CountLines(RemoveEmpty(ps), p) == CountLines(ps, p)
  {
    if ps != [] {
      CountRemoveEmpty(ps[1..], p);
      if ps[0] != [] {
        assert ([ps[0]] + RemoveEmpty(ps[1..]))[1..] == RemoveEmpty(ps[1..]);
      }
    }
  }

  /** A leading white character changes no count of a trim-insensitive property. */
  lemma {:induction false} CountLinesLeadingWhite(c: char, u: string, p: string -> bool)
    requires IsWhite(c) && TrimInsensitive(p)
    ensures CountLines(Lines([c] + u), p) == CountLines(Lines(u), p)
  {
    var r := RawLines(u);
    CountRemoveEmpty(r, p);
    CountRemoveEmpty(RawLines([c] + u), p);
    var e: string := [];
    if IsLineBreak(c) {
      assert e + [c] + u == [c] + u;
      SplitConcatSep(e, c, u, IsLineBreak);
      assert SplitOn(e, IsLineBreak) == [e];
      assert RawLines([c] + u) == [e] + r;
      CountLinesConcat([e], r, p);
      CountLinesSingle(e, p);
    } else {
      SplitConcatPlain([c], u, IsLineBreak);
      assert r == [r[0]] + r[1..];
      CountLinesConcat([[c] + r[0]], r[1..], p);
      CountLinesConcat([r[0]], r[1..], p);
      CountLinesSingle([c] + r[0], p);
      CountLinesSingle(r[0], p);
      TrimAfterWhite(c, r[0]);
      assert p([c] + r[0]) == p(r[0]) by {
        assert p([c] + r[0]) == p(Trim([c] + r[0]));
        assert p(r[0]) == p(Trim(r[0]));
      }
    }
  }

  /** A trailing white character changes no count of a trim-insensitive property. */
  lemma {:induction false} CountLinesTrailingWhite(u: string, c: char, p: string -> bool)
    requires IsWhite(c) && TrimInsensitive(p)
    ensures CountLines(Lines(u + [c]), p) == CountLines(Lines(u), p)
  {
    var r := RawLines(u);
    CountRemoveEmpty(r, p);
    CountRemoveEmpty(RawLines(u + [c]), p);
    var e: string := [];
    if IsLineBreak(c) {
      assert u + [c] + e == u + [c];
      SplitConcatSep(u, c, e, IsLineBreak);
      assert SplitOn(e, IsLineBreak) == [e];
      assert RawLines(u + [c]) == r + [e];
      CountLinesConcat(r, [e], p);
      CountLinesSingle(e, p);
    } else {
      SplitSnocPlain(u, c, IsLineBreak);
      var front, last := r[..|r| - 1], r[|r| - 1];
      assert r == front + [last];
      assert RawLines(u + [c]) == front + [last + [c]];
      CountLinesConcat(front, [last], p);
      CountLinesConcat(front, [last + [c]], p);
      CountLinesSingle(last, p);
      CountLinesSingle(last + [c], p);
      TrimBeforeWhite(last, c);
      assert p(last + [c]) == p(last) by {
        assert p(last + [c]) == p(Trim(last + [c]));
        assert p(last) == p(Trim(last));
      }
    }
  }

  lemma {:induction false} CountLinesLeadingBlank(w: string, u: string, p: string -> bool)
    requires IsBlank(w) && TrimInsensitive(p)
    ensures CountLines(Lines(w + u), p) == CountLines(Lines(u), p)
  {
    if w == [] {
      assert w + u == u;
    } else {
      assert w + u == [w[0]] + (w[1..] + u);
      CountLinesLeadingWhite(w[0], w[1..] + u, p);
      CountLinesLeadingBlank(w[1..], u, p);
    }
  }

  lemma {:induction false} CountLinesTrailingBlank(u: string, w: string, p: string -> bool)
    requires IsBlank(w) && TrimInsensitive(p)
    ensures CountLines(Lines(u + w), p) == CountLines(Lines(u), p)
  {
    if w == [] {
      assert u + w == u;
    } else {
      var w0 := w[..|w| - 1];
      assert u + w == (u + w0) + [w[|w| - 1]];
      CountLinesTrailingWhite(u + w0, w[|w| - 1], p);
      CountLinesTrailingBlank(u, w0, p);
    }
  }

  /** Counting lines with a trim-insensitive property gives the same number on the text and
    * on its trim. */
  lemma CountLinesTrim(s: string, p: string -> bool)
    requires TrimInsensitive(p)
    ensures CountLines(Lines(s), p) == CountLines(Lines(Trim(s)), p)
  {
    var head, t, tail := TrimParts(s);
    CountLinesLeadingBlank(head, t + tail, p);
    CountLinesTrailingBlank(t, tail, p);
  }

  /** A text is its leading white space, its trim and its trailing white space. */
  lemma {:induction false} TrimParts(s: string) returns (head: string, t: string, tail: string)
    ensures IsBlank(head) && IsBlank(tail) && t == Trim(s) && s == head + (t + tail)
  {
    var o := TrimOffset(s);
    t := Trim(s);
    TrimSpec(s);
    head, tail := s[..o], s[o + |t|..];
    assert IsBlank(head) by {
      forall i | 0 <= i < |head| ensures IsWhite(head[i]) {
        assert head[i] == s[i];
      }
    }
    assert IsBlank(tail) by {
      forall i | 0 <= i < |tail| ensures IsWhite(tail[i]) {
        assert tail[i] == s[o + |t| + i];
      }
    }
    SliceThree(s, o, |t|);
  }

  lemma {:induction false} CountLinesMonotone(ls: seq<string>, p: string -> bool, q: string -> bool)
    requires forall k :: 0 <= k < |ls| && p(ls[k]) ==> q(ls[k])
    ensures CountLines(ls, p) <= CountLines(ls, q)
  {
    if ls != [] {
      CountLinesMonotone(ls[1..], p, q);
    }
  }

  /** A text that passes the multiple-choice gate and has twenty characters once trimmed is
    * likely a question: the gate's choice lines are option lines of the likeness test. */
  lemma LikelyWhenGated(ocr: string)
    requires HasEnoughOptionsForAi(ocr) && |Trim(ocr)| >= 20
    ensures IsLikelyQuestion(ocr)
  {
    var ls := Lines(Trim(ocr));
    GateCountOfTrim(ocr);
    ChoiceLinesAreOptionLines(ls);
    CountLinesMonotone(ls, ChoiceLine, LetterOptionLine);
    LikelyFromOptionCount(ocr);
  }

  lemma GateCountOfTrim(ocr: string)
    ensures CountLines(Lines(Trim(ocr)), ChoiceLine) == CountLines(Lines(ocr), ChoiceLine)
  {
    ChoiceLineTrimInsensitive();
    CountLinesTrim(ocr, ChoiceLine);
  }

  lemma ChoiceLinesAreOptionLines(ls: seq<string>)
    ensures forall k :: 0 <= k < |ls| && ChoiceLine(ls[k]) ==> LetterOptionLine(ls[k])
  {
    forall k | 0 <= k < |ls| && ChoiceLine(ls[k])
      ensures LetterOptionLine(ls[k])
    {
      var t := Trim(ls[k]);
      assert IsChoiceLetter(t[0]);
    }
  }

  lemma LikelyFromOptionCount(ocr: string)
    requires !IsBlank(ocr) && |Trim(ocr)| >= 20
    requires CountLines(Lines(Trim(ocr)), LetterOptionLine) >= 2
    ensures IsLikelyQuestion(ocr)
  {
  }

  // ---------------------------------------------------------------------------
  // Coverage of the AI answer
  // ---------------------------------------------------------------------------

  function LowerAll(ts: seq<string>): (r: seq<string>)
    ensures |r| == |ts| && forall i :: 0 <= i < |ts| ==> r[i] == Lower(ts[i])
  {
    seq(|ts|, i requires 0 <= i < |ts| => Lower(ts[i]))
  }

  /** The number of tokens of ts that belong to s, repetitions counted. */
  function CountIn(ts: seq<string>, s: set<string>): (n: nat)
    ensures n <= |ts|
    ensures n == |ts| <==> forall i :: 0 <= i < |ts| ==> ts[i] in s
    ensures n == 0 <==> forall i :: 0 <= i < |ts| ==> ts[i] !in s
  {
    if ts == [] then 0
    else
      var rest := CountIn(ts[1..], s);
      assert forall i :: 1 <= i < |ts| ==> ts[i] == ts[1..][i - 1];
      (if ts[0] in s then 1 else 0) + rest
  }

  /** The option values that are not blank, in dictionary order. */
  function NonBlank(vs: seq<string>): (r: seq<string>)
    ensures forall k :: 0 <= k < |r| ==> !IsBlank(r[k]) && r[k] in vs
    ensures forall k :: 0 <= k < |vs| && !IsBlank(vs[k]) ==> vs[k] in r
  {
    if vs == [] then []
    else (if IsBlank(vs[0]) then [] else [vs[0]]) + NonBlank(vs[1..])
  }

  /** The texts CalculateCoverageRatio reads: the question unless it is blank, then the
    * option values that are not blank. */
  function CoverageParts(question: string, options: Option<OptionMap>): seq<string> {
    (if IsBlank(question) then [] else [question])
    + (if HasOptions(options) then NonBlank(Values(options.value)) else [])
  }

  /** CalculateCoverageRatio: the number of word tokens of the question and the option values
    * that occur among the OCR's tokens (lower-cased, repetitions counted), over the number of
    * OCR tokens. */
  function CalculateCoverageRatio(ocr: string, question: string, options: Option<OptionMap>): (r: Ratio)
    ensures r.den > 0 ==> r.den == |Words(ocr)|
    ensures r.num <= |Words(Join(" ", CoverageParts(question, options)))|
    ensures CoverageParts(question, options) == [] ==> r == Ratio(0, 0)
  {
    if IsBlank(ocr) then Ratio(0, 0)
    else
      var ocrTokens := LowerAll(Words(ocr));
      if ocrTokens == [] then Ratio(0, 0)
      else
        var parts := CoverageParts(question, options);
        if parts == [] then Ratio(0, 0)
        else
          var extracted := LowerAll(Words(Join(" ", parts)));
          if extracted == [] then Ratio(0, 0)
          else
            var ocrSet := set i | 0 <= i < |ocrTokens| :: ocrTokens[i];
            Ratio(CountIn(extracted, ocrSet), |ocrTokens|)
  }

  /** The acceptance test of HandleJsonStage: coverage of at least 0.10. */
  predicate CoversOcr(ocr: string, question: string, options: Option<OptionMap>) {
    AtLeast(CalculateCoverageRatio(ocr, question, options), 10, 100)
  }

  /** A question copied word for word from a text with at least one word covers every token
    * of that text, and so passes the acceptance test. */
  lemma VerbatimQuestionCovers(ocr: string)
    requires Words(ocr) != []
    ensures CalculateCoverageRatio(ocr, ocr, None) == Ratio(|Words(ocr)|, |Words(ocr)|)
    ensures CoversOcr(ocr, ocr, None)
  {
    NonBlankOfWord(ocr, 0);
    assert CoverageParts(ocr, None) == [ocr];
    var ocrTokens := LowerAll(Words(ocr));
    var ocrSet := set i | 0 <= i < |ocrTokens| :: ocrTokens[i];
    assert forall i :: 0 <= i < |ocrTokens| ==> ocrTokens[i] in ocrSet;
  }

  /** Without a question and without a non-blank option value nothing is covered. */
  lemma NothingExtractedNotCovered(ocr: string, question: string, options: Option<OptionMap>)
    requires IsBlank(question)
    requires options.None? || forall k :: 0 <= k < |options.value| ==> IsBlank(options.value[k].1)
    ensures !CoversOcr(ocr, question, options)
  {
    if HasOptions(options) {
      NonBlankOfBlanks(Values(options.value));
    }
  }

  lemma {:induction false} NonBlankOfBlanks(vs: seq<string>)
    requires forall k :: 0 <= k < |vs| ==> IsBlank(vs[k])
    ensures NonBlank(vs) == []
  {
    if vs != [] {
      NonBlankOfBlanks(vs[1..]);
    }
  }

  // ---------------------------------------------------------------------------
  // The question block of noisy OCR output
  // ---------------------------------------------------------------------------

  const FinishTestPhrase := "t\U{F4}i mu\U{1ED1}n ho\U{E0}n th\U{E0}nh b\U{E0}i ki\U{1EC3}m tra"
  const WantToFinishPrefix := "t\U{F4}i mu\U{1ED1}n ho\U{E0}n th\U{E0}nh"
  const FinishPrefix := "ho\U{E0}n th\U{E0}nh"
  const MachinePrefix := "m\U{E1}y:"
  const StudentPrefix := "student:"
  const ServerPrefix := "m\U{E1}y ch\U{1EE7}:"
  const DurationPhrase := "th\U{1EDD}i l\U{1B0}\U{1EE3}ng:"
  const TimeLeftPhrase := "th\U{1EDD}i gian c\U{F2}n l\U{1EA1}i"
  const TotalScorePhrase := "t\U{1ED5}ng \U{111}i\U{1EC3}m:"
  const FontPhrase := "ph\U{F4}ng ch\U{1EEF}:"
  const SizePhrase := "k\U{ED}ch th\U{1B0}\U{1EDB}c:"
  const NextPhrase := "k\U{1EBF} ti\U{1EBF}p"
  const MultipleChoicePhrase := "nhi\U{1EC1}u l\U{1EF1}a ch\U{1ECD}n"
  const AnswerLabel := "tr\U{1EA3} l\U{1EDD}i"
  const FontPrefix := "font:"
  const SizePrefix := "size:"

  /** The system sentences of the exam screen, tested on the lower-cased trimmed line. */
  predicate IsSystemPhrase(lower: string) {
    Contains(lower, FinishTestPhrase) || StartsWith(lower, WantToFinishPrefix)
    || StartsWith(lower, FinishPrefix) || StartsWith(lower, MachinePrefix)
    || StartsWith(lower, StudentPrefix) || StartsWith(lower, ServerPrefix)
    || Contains(lower, DurationPhrase) || Contains(lower, TimeLeftPhrase)
    || Contains(lower, TotalScorePhrase) || Contains(lower, FontPhrase)
    || Contains(lower, SizePhrase) || Contains(lower, NextPhrase)
    || Contains(lower, MultipleChoicePhrase) || lower == AnswerLabel
    || StartsWith(lower, FontPrefix) || StartsWith(lower, SizePrefix)
  }

  /** ^[0-9\s]+$ */
  predicate IsDigitsAndSpaces(t: string) {
    |t| > 0 && forall i :: 0 <= i < |t| ==> IsDigit(t[i]) || IsWhite(t[i])
  }

  /** The number of maximal runs of \d in s, given whether the character before s is one. */
  function DigitRunsAfter(s: string, afterDigit: bool): nat {
    if s == [] then 0
    else (if IsDecimalDigit(s[0]) && !afterDigit then 1 else 0) + DigitRunsAfter(s[1..], IsDecimalDigit(s[0]))
  }

  /** ^(\d+\s+){3,}\d+$ : runs of digits and white space that start and end with digits and
    * hold at least four digit runs. */
  predicate IsNavigationRow(s: string) {
    |s| > 0 && IsDecimalDigit(s[0]) && IsDecimalDigit(s[|s| - 1])
    && (forall i :: 0 <= i < |s| ==> IsDecimalDigit(s[i]) || IsWhite(s[i]))
    && DigitRunsAfter(s, false) >= 4
  }

  /** IsNoiseLine */
  predicate IsNoiseLine(line: string) {
    var t := Trim(line);
    t == [] || IsSystemPhrase(Lower(t)) || IsDigitsAndSpaces(t) || IsNavigationRow(Lower(t))
  }

  /** The lines f(l) for the lines l of ls, in order, with those that drop holds for left out. */
  function MapFilter(ls: seq<string>, f: string -> string, drop: string -> bool): (r: seq<string>)
    ensures |r| <= |ls|
    ensures forall k :: 0 <= k < |r| ==> !drop(r[k])
    ensures forall k :: 0 <= k < |r| ==> exists j :: 0 <= j < |ls| && r[k] == f(ls[j])
  {
    if ls == [] then []
    else
      var rest := MapFilter(ls[1..], f, drop);
      assert forall j :: 1 <= j < |ls| ==> ls[j] == ls[1..][j - 1];
      (if drop(f(ls[0])) then [] else [f(ls[0])]) + rest
  }

  /** The raw lines with their trailing white space removed and the noise lines dropped. */
  function FilteredLines(ocr: string): seq<string> {
    MapFilter(RawLines(ocr), TrimEnd, IsNoiseLine)
  }

  /** The first line at or after position from that satisfies p. */
  function FirstWhere(ls: seq<string>, p: string -> bool, from: nat): (r: Option<nat>)
    requires from <= |ls|
    ensures r.Some? ==> (from <= r.value < |ls| && p(ls[r.value])
      && forall j :: from <= j < r.value ==> !p(ls[j]))
    ensures r.None? ==> forall j :: from <= j < |ls| ==> !p(ls[j])
    decreases |ls| - from
  {
    if from == |ls| then None
    else if p(ls[from]) then Some(from)
    else FirstWhere(ls, p, from + 1)
  }

  /** The last line that satisfies p. */
  function LastWhere(ls: seq<string>, p: string -> bool): (r: Option<nat>)
    ensures r.Some? ==> (r.value < |ls| && p(ls[r.value])
      && forall j :: r.value < j < |ls| ==> !p(ls[j]))
    ensures r.None? ==> forall j :: 0 <= j < |ls| ==> !p(ls[j])
  {
    if ls == [] then None
    else if p(ls[|ls| - 1]) then Some(|ls| - 1)
    else LastWhere(ls[..|ls| - 1], p)
  }

  /** The lines [start, end) of the filtered lines that form the question block. */
  datatype Block = Block(start: nat, end: nat)

  /** Up to three lines before the first option line through the last option line; all the
    * lines when none is an option line. */
  function BlockRange(ls: seq<string>, isOption: string -> bool): (b: Block)
    requires |ls| > 0
    ensures b.start < b.end <= |ls|
    ensures forall j :: 0 <= j < |ls| && isOption(ls[j]) ==> b.start <= j < b.end
    ensures FirstWhere(ls, isOption, 0).None? ==> b == Block(0, |ls|)
    ensures FirstWhere(ls, isOption, 0).Some? ==>
      var f := FirstWhere(ls, isOption, 0).value;
      isOption(ls[b.end - 1]) && b.start <= f && f - b.start == (if f >= 3 then 3 else f)
  {
    match FirstWhere(ls, isOption, 0)
    case None => Block(0, |ls|)
    case Some(f) =>
      var l := LastWhere(ls, isOption);
      assert l.Some?;
      Block(if f >= 3 then f - 3 else 0, l.value + 1)
  }

  /** ExtractQuestionBlock */
  function ExtractQuestionBlock(ocr: string): string {
    if IsBlank(ocr) then ocr
    else
      var ls := FilteredLines(ocr);
      if ls == [] then ocr
      else
        var b := BlockRange(ls, LetterOptionLine);
        Join(NewLine, ls[b.start..b.end])
  }

  /** A blank text, or one made only of noise lines, comes back unchanged; otherwise the
    * non-empty lines of the block are exactly the chosen range of the filtered lines, so none
    * of them is a noise line. */
  lemma BlockLines(ocr: string)
    ensures IsBlank(ocr) || FilteredLines(ocr) == [] ==> ExtractQuestionBlock(ocr) == ocr
    ensures !IsBlank(ocr) && FilteredLines(ocr) != [] ==>
      var ls := FilteredLines(ocr);
      var b := BlockRange(ls, LetterOptionLine);
      Lines(ExtractQuestionBlock(ocr)) == ls[b.start..b.end]
  {
    if !IsBlank(ocr) && FilteredLines(ocr) != [] {
      var ls := FilteredLines(ocr);
      FilteredSingleLines(ocr);
      var b := BlockRange(ls, LetterOptionLine);
      LinesOfRange(ls, b.start, b.end);
    }
  }

  lemma LinesOfRange(ls: seq<string>, start: nat, end: nat)
    requires start <= end <= |ls|
    requires forall k :: 0 <= k < |ls| ==> ls[k] != [] && NoLineBreak(ls[k])
    ensures Lines(Join(NewLine, ls[start..end])) == ls[start..end]
  {
    var block := ls[start..end];
    assert forall k :: 0 <= k < |block| ==> block[k] == ls[start + k];
    LinesOfJoin(NewLine, block);
  }

  /** Every filtered line is a non-empty line without line breaks. */
  lemma FilteredSingleLines(ocr: string)
    ensures forall k :: 0 <= k < |FilteredLines(ocr)| ==>
      FilteredLines(ocr)[k] != [] && NoLineBreak(FilteredLines(ocr)[k])
  {
    var raw := RawLines(ocr);
    SplitPiecesNoSep(ocr, IsLineBreak);
    var ls := FilteredLines(ocr);
    forall k | 0 <= k < |ls|
      ensures ls[k] != [] && NoLineBreak(ls[k])
    {
      var j :| 0 <= j < |raw| && ls[k] == TrimEnd(raw[j]);
      assert NoLineBreak(raw[j]);
      TrimEndSpec(raw[j]);
      assert forall i :: 0 <= i < |ls[k]| ==> ls[k][i] == raw[j][i];
      assert !IsNoiseLine(ls[k]);
    }
  }
}
