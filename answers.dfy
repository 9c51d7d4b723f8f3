/** The answer record saved for every processed capture, and the content key the pipeline and
  * the control panel use to recognise two records with the same question and answer. */
module Answers {
  import opened Text
  import opened Wrappers
  import opened OptionMaps

  /** AnswerResult: Options is null (None) or a dictionary in insertion order. CreatedAt is the
    * clock reading when the record was made, kept as an opaque number. */
  datatype AnswerResult = AnswerResult(
    FileName: string,
    ImagePath: string,
    QuestionNumber: string,
    QuestionId: string,
    Question: string,
    Options: Option<OptionMap>,
    Answer: string,
    AnswerText: string,
    RawAnswer: string,
    OcrText: string,
    CreatedAt: int)

  /** Options != null && Options.Count > 0 */
  predicate HasOptions(o: Option<OptionMap>) { o.Some? && |o.value| > 0 }

  /** The answer text a content key uses: AnswerText unless it is blank, then Answer. */
  function KeyAnswer(r: AnswerResult): string {
    if !IsBlank(r.AnswerText) then r.AnswerText else r.Answer
  }

  /** "{Key}:{Value}".Trim() for each option, ordered by key ignoring case. */
  function OptionParts(o: Option<OptionMap>): (ps: seq<string>)
    ensures HasOptions(o) ==> |ps| == |o.value|
    ensures !HasOptions(o) ==> ps == []
  {
    if HasOptions(o) then
      var sorted := SortBy(o.value, EntryKey);
      assert |sorted| == |o.value| by {
        assert |multiset(sorted)| == |multiset(o.value)|;
      }
      seq(|sorted|, i requires 0 <= i < |sorted| => Trim(sorted[i].0 + ":" + sorted[i].1))
    else []
  }

  /** The parts joined with '|' before line breaks and white space are normalised. */
  function KeyParts(question: string, options: Option<OptionMap>, answer: string): seq<string> {
    [Trim(question)] + OptionParts(options) + [Trim(answer)]
  }

  /** BuildContentKey applied to the three things it reads. */
  function ContentKeyOf(question: string, options: Option<OptionMap>, answer: string): (k: string)
    ensures forall i :: 0 <= i < |k| ==> !IsLineBreak(k[i])
    ensures forall i :: 0 <= i < |k| - 1 ==> !(IsWhite(k[i]) && IsWhite(k[i + 1]))
  {
    var joined := Join("|", KeyParts(question, options, answer));
    CollapseWhite(Replace(Replace(joined, "\r", " "), "\n", " "))
  }

  /** BuildContentKey(result) */
  function BuildContentKey(r: AnswerResult): string {
    ContentKeyOf(r.Question, r.Options, KeyAnswer(r))
  }

  /** Two option dictionaries that hold the same entries in a different order, with no two
    * keys differing only in case, give the same content key. */
  lemma ContentKeyIgnoresOptionOrder(r1: AnswerResult, r2: AnswerResult)
    requires r1.Question == r2.Question && KeyAnswer(r1) == KeyAnswer(r2)
    requires r1.Options.Some? && r2.Options.Some?
    requires multiset(r1.Options.value) == multiset(r2.Options.value)
    requires DistinctKeys(r1.Options.value, IgnoreCase)
    ensures BuildContentKey(r1) == BuildContentKey(r2)
  {
    var d1, d2 := r1.Options.value, r2.Options.value;
    assert |d1| == |d2| by { assert |multiset(d1)| == |multiset(d2)|; }
    DistinctKeysFolded(d1);
    SortByIgnoresOrder(d1, d2, EntryKey);
    assert OptionParts(r1.Options) == OptionParts(r2.Options);
  }

  /** The key reads only the question, the options and the chosen answer text: records that
    * agree on those have the same key whatever their file, meta, raw answer or OCR text. */
  lemma ContentKeyReadsContentOnly(r1: AnswerResult, r2: AnswerResult)
    requires r1.Question == r2.Question && r1.Options == r2.Options
    requires KeyAnswer(r1) == KeyAnswer(r2)
    ensures BuildContentKey(r1) == BuildContentKey(r2)
  {
  }

  /** A record emptied of its question, options and answers always has the key "|". */
  lemma {:induction false} EmptiedRecordKey(r: AnswerResult)
    requires r.Question == [] && r.Options.None? && r.Answer == [] && r.AnswerText == []
    ensures BuildContentKey(r) == "|"
  {
    assert KeyParts(r.Question, r.Options, KeyAnswer(r)) == [[], []];
    var joined := Join("|", [[], []]);
    assert joined == "|";
    assert Replace("|", "\r", " ") == "|" by {
      assert Replace("|"[1..], "\r", " ") == "|"[1..];
    }
    assert Replace("|", "\n", " ") == "|" by {
      assert Replace("|"[1..], "\n", " ") == "|"[1..];
    }
    assert CollapseWhite("|") == "|" by {
      assert CollapseWhite("|"[1..]) == [];
    }
  }
}
