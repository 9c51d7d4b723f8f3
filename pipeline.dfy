/** The two-stage capture pipeline: stage one turns an image into OCR text (with retries, a
  * sample-text fallback and an optional cloud OCR), stage two asks the AI about the text (with
  * retries), checks the reply against the text and saves the answer record. Both stages are
  * guarded by check-then-insert ledgers that drop images, texts, questions and answers already
  * seen. OCR engines, the AI, hashing, JSON parsing and the clock are inputs; the file system
  * is the set of paths that exist. */
module Pipeline {
  import opened Wrappers
  import opened Text
  import opened OptionMaps
  import opened Answers
  import opened Heuristics
  import opened QuestionMeta
  import opened AiReply
  import opened Paths
  import opened Settings
  import MockOcr

  /** OcrQueueItem(ImagePath, FileName, OcrText, LowConfidence) */
  datatype OcrQueueItem = OcrQueueItem(ImagePath: string, FileName: string, OcrText: string, LowConfidence: bool)

  const MaxOcrAttempts: nat := 3
  const MaxAiAttempts: nat := 3

  // ---------------------------------------------------------------------------
  // The files the pipeline writes beside its results
  // ---------------------------------------------------------------------------

  /** "{name}.processed": the marker written when an image is taken up. */
  function MarkerPath(outputDir: string, imagePath: string): string {
    Combine(outputDir, FileNameWithoutExtension(imagePath) + ".processed")
  }

  /** "{name}_ocr.json": the OCR text handed from stage one to stage two. */
  function OcrJsonPath(outputDir: string, imagePath: string): string {
    Combine(outputDir, FileNameWithoutExtension(imagePath) + "_ocr.json")
  }

  /** "{name}_result.json": the saved answer record. */
  function ResultPath(outputDir: string, imagePath: string): string {
    Combine(outputDir, FileNameWithoutExtension(imagePath) + "_result.json")
  }

  lemma SuffixKeepsNoSeparator(name: string, suffix: string)
    requires NoSeparator(name) && NoSeparator(suffix)
    ensures NoSeparator(name + suffix)
  {
    forall i | 0 <= i < |name + suffix|
      ensures !IsDirectorySeparator((name + suffix)[i])
    {
      if i >= |name| {
        assert (name + suffix)[i] == suffix[i - |name|];
      }
    }
  }

  /** One name with two different suffixes gives two different paths. */
  lemma SuffixesDistinct(dir: string, name: string, s1: string, s2: string)
    requires NoSeparator(name) && NoSeparator(s1) && NoSeparator(s2)
    requires s1 != [] && s2 != [] && s1[|s1| - 1] != s2[|s2| - 1]
    ensures Combine(dir, name + s1) != Combine(dir, name + s2)
  {
    SuffixKeepsNoSeparator(name, s1);
    SuffixKeepsNoSeparator(name, s2);
    var a, b := name + s1, name + s2;
    assert a[|a| - 1] == s1[|s1| - 1];
    assert b[|b| - 1] == s2[|s2| - 1];
    CombineDistinct(dir, a, b);
  }

  /** Two different names with one non-empty suffix give two different paths. */
  lemma NamesDistinct(dir: string, n1: string, n2: string, suffix: string)
    requires NoSeparator(n1) && NoSeparator(n2) && NoSeparator(suffix) && suffix != [] && n1 != n2
    ensures Combine(dir, n1 + suffix) != Combine(dir, n2 + suffix)
  {
    SuffixKeepsNoSeparator(n1, suffix);
    SuffixKeepsNoSeparator(n2, suffix);
    if |n1| == |n2| {
      assert (n1 + suffix)[..|n1|] == n1;
      assert (n2 + suffix)[..|n2|] == n2;
    }
    CombineDistinct(dir, n1 + suffix, n2 + suffix);
  }

  /** The two artifact suffixes hold no separator and end differently. */
  lemma SuffixLiterals()
    ensures NoSeparator(".processed") && NoSeparator("_result.json")
    ensures var m, r := ".processed", "_result.json"; m[|m| - 1] == 'd' && r[|r| - 1] == 'n'
  {
  }

  /** The marker and the result of an image are different files, and images with different
    * names (without extension) never share a marker or a result file. */
  lemma ArtifactPathsDistinct(outputDir: string, p1: string, p2: string)
    ensures MarkerPath(outputDir, p1) != ResultPath(outputDir, p1)
    ensures FileNameWithoutExtension(p1) != FileNameWithoutExtension(p2) ==>
      MarkerPath(outputDir, p1) != MarkerPath(outputDir, p2)
      && ResultPath(outputDir, p1) != ResultPath(outputDir, p2)
  {
    var n1, n2 := FileNameWithoutExtension(p1), FileNameWithoutExtension(p2);
    var marker, result := ".processed", "_result.json";
    SuffixLiterals();
    SuffixesDistinct(outputDir, n1, marker, result);
    if n1 != n2 {
      NamesDistinct(outputDir, n1, n2, marker);
      NamesDistinct(outputDir, n1, n2, result);
    }
  }

  // ---------------------------------------------------------------------------
  // Stage one: OCR with retries and fallbacks
  // ---------------------------------------------------------------------------

  /** The structure test of stage one: a likely question with enough options. */
  predicate Likely(text: string) { IsLikelyQuestion(text) && HasEnoughOptionsForAi(text) }

  /** The text of one OCR attempt: the engine's text, or the sample text when it throws. */
  function OcrText(reply: Option<string>, mock: string): string {
    match reply
    case Some(t) => t
    case None => mock
  }

  /** The text the OCR loop ends with and the number of attempts it made. */
  datatype OcrRun = OcrRun(text: string, attempts: nat)

  /** The OCR loop from attempt on: ocr(a) is the engine's reply at attempt a (None when it
    * throws). It stops at the first text accept takes, and at the last attempt in any case. */
  function OcrRounds(ocr: nat -> Option<string>, mock: string, accept: string -> bool, attempt: nat): (r: OcrRun)
    requires 1 <= attempt <= MaxOcrAttempts
    ensures attempt <= r.attempts <= MaxOcrAttempts
    ensures r.text == OcrText(ocr(r.attempts), mock)
    ensures accept(r.text) || r.attempts == MaxOcrAttempts
    ensures forall a :: attempt <= a < r.attempts ==> !accept(OcrText(ocr(a), mock))
    decreases MaxOcrAttempts - attempt
  {
    var text := OcrText(ocr(attempt), mock);
    if accept(text) || attempt == MaxOcrAttempts then OcrRun(text, attempt)
    else OcrRounds(ocr, mock, accept, attempt + 1)
  }

  /** The OCR loop of stage one, accepting a likely question. */
  function OcrFrom(ocr: nat -> Option<string>, mock: string): OcrRun {
    OcrRounds(ocr, mock, Likely, 1)
  }

  /** The cloud OCR fallback: asked only when a cloud OCR is available and the text lacks
    * structure; a non-blank reply replaces the text. vision is its reply, None when it throws. */
  function AfterVision(text: string, likely: bool, available: bool, vision: Option<string>): (string, bool) {
    if available && (!likely || !HasEnoughOptionsForAi(text)) then
      match vision
      case Some(v) => if !IsBlank(v) then (v, Likely(v)) else (text, likely)
      case None => (text, likely)
    else (text, likely)
  }

  /** The item stage one queues for an image. */
  function QueuedItem(imagePath: string, ocr: nat -> Option<string>, mock: string, available: bool,
                      vision: Option<string>): OcrQueueItem
  {
    var run := OcrFrom(ocr, mock);
    var after := AfterVision(run.text, Likely(run.text), available, vision);
    OcrQueueItem(imagePath, FileName(imagePath), after.0, !after.1)
  }

  /** The cloud OCR only ever replaces a text that failed the structure test, and the
    * confidence flag always tells whether the queued text passes it. */
  lemma VisionOnlyWhenUnlikely(text: string, available: bool, vision: Option<string>)
    ensures var r := AfterVision(text, Likely(text), available, vision);
      r.1 == Likely(r.0) && (r.0 != text ==> available && !Likely(text) && vision == Some(r.0) && !IsBlank(r.0))
  {
  }

  /** When the OCR engine fails at its first attempt the sample text is used, and it is
    * accepted at once and queued with full confidence. */
  lemma MockFallbackAccepted(imagePath: string, hashCode: string -> int, ocr: nat -> Option<string>,
                             available: bool, vision: Option<string>)
    requires ocr(1).None?
    ensures OcrFrom(ocr, MockOcr.ExtractText(imagePath, hashCode))
      == OcrRun(MockOcr.ExtractText(imagePath, hashCode), 1)
    ensures QueuedItem(imagePath, ocr, MockOcr.ExtractText(imagePath, hashCode), available, vision)
      == OcrQueueItem(imagePath, FileName(imagePath), MockOcr.ExtractText(imagePath, hashCode), false)
  {
    MockOcr.MockPassesGates(imagePath, hashCode);
  }

  // ---------------------------------------------------------------------------
  // Stage two: the AI with retries, checked against the OCR
  // ---------------------------------------------------------------------------

  const OriginalOcrNote := "\n\n[OCR g\U{1ED1}c (c\U{F3} th\U{1EC3} ch\U{1EE9}a r\U{E1}c, ch\U{1EC9} d\U{F9}ng tham kh\U{1EA3}o):]\n"
  const RetryHint := "\n\n[L\U{1B0}u \U{FD}: C\U{E1}c l\U{1EA7}n tr\U{1B0}\U{1EDB}c b\U{1EA1}n ch\U{1B0}a tr\U{1EA3} v\U{1EC1} "
    + "\U{111}\U{1EA7}y \U{111}\U{1EE7} JSON (thi\U{1EBF}u question ho\U{1EB7}c answer). L\U{1EA7}n n\U{E0}y "
    + "B\U{1EAE}T BU\U{1ED8}C tr\U{1EA3} v\U{1EC1} JSON \U{111}\U{1EE7} tr\U{1B0}\U{1EDD}ng v\U{E0} ch\U{1ECD}n answer "
    + "l\U{E0} \U{111}\U{FA}ng 1 ch\U{1EEF} c\U{E1}i A/B/C/D.]"

  /** The question block of the OCR, or the whole OCR when the block is blank: what the AI is
    * shown first and what coverage is measured against. */
  function BaseOcrForAi(ocr: string): string {
    var block := ExtractQuestionBlock(ocr);
    if IsBlank(block) then ocr else block
  }

  /** The prompt built from a base text: the whole OCR follows the base under the note when
    * they differ, and the hint ends the prompt from the second attempt on. */
  function Compose(base: string, ocr: string, note: string, hint: string, attempt: nat): string {
    var withOriginal := if base != ocr then base + note + ocr else base;
    if attempt >= 2 then withOriginal + hint else withOriginal
  }

  /** The text sent to the AI at an attempt. */
  function PromptFor(ocr: string, attempt: nat): string {
    Compose(BaseOcrForAi(ocr), ocr, OriginalOcrNote, RetryHint, attempt)
  }

  /** A composed prompt starts with its base and ends with the hint from the second attempt
    * on; a base that is the OCR itself is the whole first prompt. */
  lemma ComposeShape(base: string, ocr: string, note: string, hint: string, attempt: nat)
    ensures var p := Compose(base, ocr, note, hint, attempt);
      |base| <= |p| && p[..|base|] == base
    ensures attempt >= 2 ==> var p := Compose(base, ocr, note, hint, attempt);
      |hint| <= |p| && p[|p| - |hint|..] == hint
    ensures base == ocr ==> Compose(base, ocr, note, hint, 1) == ocr
  {
    var withOriginal := if base != ocr then base + note + ocr else base;
    assert withOriginal[..|base|] == base;
    if attempt >= 2 {
      var p := withOriginal + hint;
      assert p[..|base|] == withOriginal[..|base|];
      assert p[|p| - |hint|..] == hint;
    }
  }

  /** The prompt always starts with the base text and holds the retry hint from the second
    * attempt on; the first prompt is the OCR itself when the OCR is its own question block. */
  lemma PromptShape(ocr: string, attempt: nat)
    ensures var p := PromptFor(ocr, attempt); var b := BaseOcrForAi(ocr);
      |b| <= |p| && p[..|b|] == b
    ensures attempt >= 2 ==> var p := PromptFor(ocr, attempt);
      |RetryHint| <= |p| && p[|p| - |RetryHint|..] == RetryHint
    ensures BaseOcrForAi(ocr) == ocr ==> PromptFor(ocr, 1) == ocr
  {
    ComposeShape(BaseOcrForAi(ocr), ocr, OriginalOcrNote, RetryHint, attempt);
    ComposeShape(BaseOcrForAi(ocr), ocr, OriginalOcrNote, RetryHint, 1);
  }

  /** A question number or id the AI left out, taken from the OCR when it has one. */
  function FillMeta(p: Parsed, m: Meta): (r: Parsed)
    ensures r.question == p.question && r.options == p.options
    ensures r.answer == p.answer && r.answerText == p.answerText
  {
    p.(questionNumber := if !Present(p.questionNumber) && Present(m.number) then m.number else p.questionNumber,
       questionId := if !Present(p.questionId) && Present(m.id) then m.id else p.questionId)
  }

  /** A reply without a question or without options, completed from the OCR: a recovered
    * question or option set replaces the reply's, a recovered answer fills a blank one. */
  function MergeRecovery(p: Parsed, rec: Recovered): Parsed {
    if IsBlank(p.question) || !HasOptions(p.options) then
      var withAnswer := !IsBlank(rec.answer) && IsBlank(p.answer);
      p.(question := if !IsBlank(rec.question) then rec.question else p.question,
         options := if HasOptions(rec.options) then rec.options else p.options,
         answer := if withAnswer then rec.answer else p.answer,
         answerText := if withAnswer then rec.answerText else p.answerText)
    else p
  }

  /** The parsed reply to one AI call, completed from the OCR. */
  function MergedReply(ocr: string, answer: string, parseJson: string -> Option<Members>): Parsed {
    MergeRecovery(FillMeta(ReplyOf(answer, parseJson), ExtractQuestionMeta(ocr)), RecoveryOf(ocr, answer))
  }

  /** A null number or id is saved as "". */
  function OrEmpty(x: Option<string>): string {
    match x
    case Some(v) => v
    case None => []
  }

  /** The record built from one AI reply. */
  function AttemptOf(item: OcrQueueItem, answer: string, parseJson: string -> Option<Members>, now: int): AnswerResult {
    var p := MergedReply(item.OcrText, answer, parseJson);
    AnswerResult(item.FileName, item.ImagePath, OrEmpty(p.questionNumber), OrEmpty(p.questionId),
      p.question, p.options, p.answer, p.answerText, answer, item.OcrText, now)
  }

  /** The test that ends the AI loop early: a question and an answer, and at least 10% of the
    * OCR's words found in the question and options. */
  predicate Accepted(r: AnswerResult, ocr: string) {
    !IsBlank(r.Question) && !IsBlank(r.Answer) && CoversOcr(BaseOcrForAi(ocr), r.Question, r.Options)
  }

  /** The last record of the AI loop (None when a call throws) and the number of calls. */
  datatype AiRun = AiRun(result: Option<AnswerResult>, calls: nat)

  /** An attempt that got a reply whose record failed the acceptance test. */
  predicate Rejected(ai: (nat, string) -> Option<string>, prompt: nat -> string, build: string -> AnswerResult,
                     accept: AnswerResult -> bool, a: nat)
  {
    var reply := ai(a, prompt(a));
    reply.Some? && !accept(build(reply.value))
  }

  /** The AI loop from attempt on: ai(a, prompt(a)) is the reply at attempt a (None when the
    * call throws) and build(reply) its record. It stops at the first record accept takes, at
    * the last attempt, or at a failure. */
  function AiRounds(ai: (nat, string) -> Option<string>, prompt: nat -> string, build: string -> AnswerResult,
                    accept: AnswerResult -> bool, attempt: nat): (r: AiRun)
    requires 1 <= attempt <= MaxAiAttempts
    ensures attempt <= r.calls <= MaxAiAttempts
    ensures var reply := ai(r.calls, prompt(r.calls));
      match r.result
      case None => reply.None?
      case Some(res) => reply.Some? && res == build(reply.value)
    ensures r.result.Some? && r.calls < MaxAiAttempts ==> accept(r.result.value)
    ensures forall a :: attempt <= a < r.calls ==> Rejected(ai, prompt, build, accept, a)
    decreases MaxAiAttempts - attempt
  {
    match ai(attempt, prompt(attempt))
    case None => AiRun(None, attempt)
    case Some(answer) =>
      var res := build(answer);
      if accept(res) || attempt == MaxAiAttempts then AiRun(Some(res), attempt)
      else AiRounds(ai, prompt, build, accept, attempt + 1)
  }

  /** The prompts of an OCR text, by attempt. */
  function Prompts(ocr: string): nat -> string { (a: nat) => PromptFor(ocr, a) }

  /** The record of each reply to an item. */
  function Builder(item: OcrQueueItem, parseJson: string -> Option<Members>, now: int): string -> AnswerResult {
    answer => AttemptOf(item, answer, parseJson, now)
  }

  /** The acceptance test for an OCR text. */
  function Acceptor(ocr: string): AnswerResult -> bool { r => Accepted(r, ocr) }

  /** The AI loop of stage two for an item. */
  function AiStage(item: OcrQueueItem, ai: (nat, string) -> Option<string>, parseJson: string -> Option<Members>,
                   now: int): AiRun
  {
    AiRounds(ai, Prompts(item.OcrText), Builder(item, parseJson, now), Acceptor(item.OcrText), 1)
  }

  /** The record after the final check: one that has no question or covers less than 10% of
    * the OCR loses its question, options and answers and keeps the rest. */
  function Finalize(r: AnswerResult, ocr: string): AnswerResult {
    if !CoversOcr(BaseOcrForAi(ocr), r.Question, r.Options) || IsBlank(r.Question) then
      r.(Question := [], Options := None, Answer := [], AnswerText := [])
    else r
  }

  /** A record with its question, options and answers cleared. */
  predicate Cleared(r: AnswerResult) {
    r.Question == [] && r.Options.None? && r.Answer == [] && r.AnswerText == []
  }

  /** A saved record either has a question that covers the OCR, or nothing but the OCR and
    * its meta; the record is kept as it is exactly when its question covers the OCR. */
  lemma FinalizeShape(r: AnswerResult, ocr: string)
    ensures var f := Finalize(r, ocr);
      (!IsBlank(f.Question) && CoversOcr(BaseOcrForAi(ocr), f.Question, f.Options)) || Cleared(f)
    ensures (Finalize(r, ocr) == r) <==> ((!IsBlank(r.Question) && CoversOcr(BaseOcrForAi(ocr), r.Question, r.Options)) || Cleared(r))
    ensures var f := Finalize(r, ocr);
      f.FileName == r.FileName && f.ImagePath == r.ImagePath && f.QuestionNumber == r.QuestionNumber
      && f.QuestionId == r.QuestionId && f.RawAnswer == r.RawAnswer && f.OcrText == r.OcrText
  {
    if Cleared(r) {
      assert IsBlank(r.Question);
    }
  }

  /** Every cleared record has the content key "|": once one cleared record is saved in a
    * session, every later cleared record is dropped as duplicate content. */
  lemma ClearedResultsCollide(r1: AnswerResult, r2: AnswerResult, ocr1: string, ocr2: string)
    requires Cleared(Finalize(r1, ocr1)) && Cleared(Finalize(r2, ocr2))
    ensures BuildContentKey(Finalize(r1, ocr1)) == BuildContentKey(Finalize(r2, ocr2)) == "|"
  {
    EmptiedRecordKey(Finalize(r1, ocr1));
    EmptiedRecordKey(Finalize(r2, ocr2));
  }

  /** What stage two saves without asking the AI: the OCR text and nothing else. */
  function SkippedResult(item: OcrQueueItem, now: int): AnswerResult {
    AnswerResult(item.FileName, item.ImagePath, [], [], [], None, [], [], [], item.OcrText, now)
  }

  /** SaveResultToJson rewrites the file name from the image path before writing the record
    * (the image path itself is made absolute, which is not modelled). */
  function Stored(r: AnswerResult, imagePath: string): AnswerResult {
    r.(FileName := FileName(imagePath), ImagePath := imagePath)
  }

  // ---------------------------------------------------------------------------
  // The ledgers' tests
  // ---------------------------------------------------------------------------

  /** Some earlier text is a near duplicate of text. */
  predicate NearDuplicateIn(text: string, history: seq<OcrQueueItem>) {
    |history| > 0 && (IsNearDuplicate(text, history[0].OcrText) || NearDuplicateIn(text, history[1..]))
  }

  /** The scan of the OCR history for a near duplicate. */
  method FindNearDuplicate(text: string, history: seq<OcrQueueItem>) returns (found: bool)
    ensures found == NearDuplicateIn(text, history)
  {
    var i := 0;
    while i < |history|
      invariant 0 <= i <= |history|
      invariant NearDuplicateIn(text, history[i..]) == NearDuplicateIn(text, history)
    {
      var rest := history[i..];
      assert rest[0] == history[i] && rest[1..] == history[i + 1..];
      if IsNearDuplicate(text, history[i].OcrText) {
        return true;
      }
      i := i + 1;
    }
    found := false;
  }

  /** NearDuplicateIn is the existential it stands for. */
  lemma {:induction false} NearDuplicateInExists(text: string, history: seq<OcrQueueItem>)
    ensures NearDuplicateIn(text, history) <==>
      exists k :: 0 <= k < |history| && IsNearDuplicate(text, history[k].OcrText)
  {
    if |history| > 0 {
      NearDuplicateInExists(text, history[1..]);
      assert forall k :: 0 < k < |history| ==> history[1..][k - 1] == history[k];
    }
  }

  /** The id or the number, where present, is in the case-insensitive ledger or equal,
    * ignoring case, to that of a result on disk. */
  predicate MetaKnown(id: Option<string>, number: Option<string>, ids: set<string>, numbers: set<string>,
                      onDisk: seq<AnswerResult>)
  {
    (Present(id) && (Upper(id.value) in ids
      || exists k :: 0 <= k < |onDisk| && EqualsIgnoreCase(onDisk[k].QuestionId, id.value)))
    || (Present(number) && (Upper(number.value) in numbers
      || exists k :: 0 <= k < |onDisk| && EqualsIgnoreCase(onDisk[k].QuestionNumber, number.value)))
  }

  /** A ledger after RememberMeta: the value is added when it is present. */
  function Remembered(ledger: set<string>, x: Option<string>): set<string> {
    if Present(x) then ledger + {Upper(x.value)} else ledger
  }

  /** The content key is in the case-insensitive ledger or equal, ignoring case, to the key of
    * a result on disk. */
  predicate ContentKnown(key: string, hashes: set<string>, onDisk: seq<AnswerResult>) {
    Upper(key) in hashes || KeyOnDisk(key, onDisk)
  }

  /** Some result on disk has the key, ignoring case. */
  predicate KeyOnDisk(key: string, onDisk: seq<AnswerResult>) {
    |onDisk| > 0 && (EqualsIgnoreCase(key, BuildContentKey(onDisk[0])) || KeyOnDisk(key, onDisk[1..]))
  }

  /** The scan of the results on disk for a content key. */
  method FindKeyOnDisk(key: string, onDisk: seq<AnswerResult>) returns (found: bool)
    ensures found == KeyOnDisk(key, onDisk)
  {
    var i := 0;
    while i < |onDisk|
      invariant 0 <= i <= |onDisk|
      invariant KeyOnDisk(key, onDisk[i..]) == KeyOnDisk(key, onDisk)
    {
      var rest := onDisk[i..];
      assert rest[0] == onDisk[i] && rest[1..] == onDisk[i + 1..];
      var existingKey := BuildContentKey(onDisk[i]);
      if EqualsIgnoreCase(key, existingKey) {
        return true;
      }
      i := i + 1;
    }
    found := false;
  }

  /** KeyOnDisk is the existential it stands for. */
  lemma {:induction false} KeyOnDiskExists(key: string, onDisk: seq<AnswerResult>)
    ensures KeyOnDisk(key, onDisk) <==>
      exists k :: 0 <= k < |onDisk| && EqualsIgnoreCase(key, BuildContentKey(onDisk[k]))
  {
    if |onDisk| > 0 {
      KeyOnDiskExists(key, onDisk[1..]);
      assert forall k :: 0 < k < |onDisk| ==> onDisk[1..][k - 1] == onDisk[k];
    }
  }

  /** Without an id and a number the meta test never fires; once an id or a number has been
    * remembered, any spelling of it in another case makes the test fire. */
  lemma MetaGate(id: Option<string>, number: Option<string>, other: Option<string>,
                 ids: set<string>, numbers: set<string>, onDisk: seq<AnswerResult>)
    ensures !Present(id) && !Present(number) ==> !MetaKnown(id, number, ids, numbers, onDisk)
    ensures Present(id) || Present(number) ==>
      MetaKnown(id, number, Remembered(ids, id), Remembered(numbers, number), onDisk)
    ensures Present(id) && Present(other) && EqualsIgnoreCase(other.value, id.value) ==>
      MetaKnown(other, None, Remembered(ids, id), numbers, onDisk)
  {
  }

  /** Something the content ledger holds is a duplicate from then on, whatever the disk holds. */
  lemma ContentGate(key: string, other: string, hashes: set<string>, onDisk: seq<AnswerResult>)
    requires EqualsIgnoreCase(key, other)
    ensures ContentKnown(other, hashes + {Upper(key)}, onDisk)
  {
  }

  /** The outcome of stage one for an image. */
  datatype ImageOutcome = NotStarted | DuplicateImage | Queued(item: OcrQueueItem)

  /** The outcome of stage two for a queued item. */
  datatype JsonOutcome =
    | DuplicateOcr
    | DuplicateMeta
    | SavedWithoutAi(saved: AnswerResult)
    | Failed
    | DuplicateContent(dropped: AnswerResult)
    | Saved(saved: AnswerResult)

  /** What a pipeline fixes when it is built. */
  datatype Config = Config(autoAnswer: bool, outputDir: string, visionAvailable: bool)

  /** What a pipeline holds between calls: its queues, its ledgers, and the files (images
    * and output files) that exist. */
  datatype State = State(imageQueue: seq<string>, jsonQueue: seq<OcrQueueItem>, processedFiles: set<string>,
                         imageHashes: set<string>, ocrHistory: seq<OcrQueueItem>, questionIds: set<string>,
                         questionNumbers: set<string>, contentHashes: set<string>, files: set<string>)

  /** The files deleted with a duplicate item: the image, its marker and its OCR file. */
  function DroppedFiles(c: Config, imagePath: string): set<string> {
    {imagePath, MarkerPath(c.outputDir, imagePath), OcrJsonPath(c.outputDir, imagePath)}
  }

  /** The files SaveResultToJson leaves: the result and the marker. */
  function SavedFiles(c: Config, imagePath: string): set<string> {
    {ResultPath(c.outputDir, imagePath), MarkerPath(c.outputDir, imagePath)}
  }

  /** The image ledger after IsDuplicateImage records a new hash. */
  function HashesAfter(hashes: set<string>, hash: Option<string>): set<string> {
    if hash.Some? then hashes + {Upper(hash.value)} else hashes
  }

  /** The outcome of stage one, the OCR calls it made and the new state. */
  datatype ImageStep = ImageStep(outcome: ImageOutcome, ocrCalls: nat, after: State)

  /** How stage one starts: it stops with a step, or goes on with the path marked (its
    * marker written) and its hash recorded. */
  datatype Start = Stop(step: ImageStep) | Go(marked: State)

  /** The opening of stage one: TryMarkProcessing, then IsDuplicateImage. */
  function StartImage(c: Config, st: State, imagePath: string, imageHash: Option<string>): Start {
    if !c.autoAnswer || imagePath in st.processedFiles then Stop(ImageStep(NotStarted, 0, st))
    else
      var marked := st.(processedFiles := st.processedFiles + {imagePath},
                        files := st.files + {MarkerPath(c.outputDir, imagePath)});
      if imageHash.Some? && Upper(imageHash.value) in st.imageHashes then
        Stop(ImageStep(DuplicateImage, 0, marked.(files := marked.files - {imagePath, MarkerPath(c.outputDir, imagePath)})))
      else
        Go(marked.(imageHashes := HashesAfter(st.imageHashes, imageHash)))
  }

  /** The close of stage one: the item is queued and its OCR file written. */
  function QueueStage(c: Config, marked: State, imagePath: string, read: OcrQueueItem, ocrCalls: nat): ImageStep {
    ImageStep(Queued(read), ocrCalls,
      marked.(jsonQueue := marked.jsonQueue + [read], files := marked.files + {OcrJsonPath(c.outputDir, imagePath)}))
  }

  /** Stage one for an image, given the item its OCR yields and the OCR calls that takes
    * (ReadImage). */
  function ImageStage(c: Config, st: State, imagePath: string, imageHash: Option<string>,
                      read: OcrQueueItem, ocrCalls: nat): ImageStep
  {
    match StartImage(c, st, imagePath, imageHash)
    case Stop(step) => step
    case Go(marked) => QueueStage(c, marked, imagePath, read, ocrCalls)
  }

  /** The duplicate checks that open stage two: a near duplicate of a retained OCR text
    * (checked only for confident text) or a known id or number drops the item and its files;
    * otherwise the item's meta is remembered. None when the item passes. */
  function DedupStage(c: Config, st: State, item: OcrQueueItem, onDisk: seq<AnswerResult>): (Option<JsonOutcome>, State) {
    var m := ExtractQuestionMeta(item.OcrText);
    if !item.LowConfidence && NearDuplicateIn(item.OcrText, st.ocrHistory) then
      (Some(DuplicateOcr), st.(files := st.files - DroppedFiles(c, item.ImagePath)))
    else
      var kept := if item.LowConfidence then st else st.(ocrHistory := st.ocrHistory + [item]);
      if MetaKnown(m.id, m.number, st.questionIds, st.questionNumbers, onDisk) then
        (Some(DuplicateMeta), kept.(files := st.files - DroppedFiles(c, item.ImagePath)))
      else
        (None, kept.(questionIds := Remembered(st.questionIds, m.id),
                     questionNumbers := Remembered(st.questionNumbers, m.number)))
  }

  /** The outcome of stage two, the AI calls it made and the new state. */
  datatype JsonStep = JsonStep(outcome: JsonOutcome, aiCalls: nat, after: State)

  /** The end of stage two once the AI loop has run: a failed call unmarks the image and
    * deletes its marker; an answer is finalized and saved unless its content is known, in
    * which case the image, the result and the marker are deleted. */
  function AfterAi(c: Config, st: State, item: OcrQueueItem, onDisk: seq<AnswerResult>, run: AiRun): JsonStep {
    match run.result
    case None =>
      JsonStep(Failed, run.calls, st.(processedFiles := st.processedFiles - {item.ImagePath},
                                      files := st.files - {MarkerPath(c.outputDir, item.ImagePath)}))
    case Some(res) =>
      var r := Finalize(res, item.OcrText);
      var key := BuildContentKey(r);
      if ContentKnown(key, st.contentHashes, onDisk) then
        JsonStep(DuplicateContent(r), run.calls,
          st.(files := st.files - {item.ImagePath, ResultPath(c.outputDir, item.ImagePath), MarkerPath(c.outputDir, item.ImagePath)}))
      else
        JsonStep(Saved(Stored(r, item.ImagePath)), run.calls,
          st.(contentHashes := st.contentHashes + {Upper(key)}, files := st.files + SavedFiles(c, item.ImagePath)))
  }

  /** Stage two for a queued item, given the run its AI loop makes when it is asked. */
  function JsonStageWith(c: Config, st: State, item: OcrQueueItem, onDisk: seq<AnswerResult>, run: AiRun,
                         now: int): JsonStep
  {
    var d := DedupStage(c, st, item, onDisk);
    if d.0.Some? then JsonStep(d.0.value, 0, d.1)
    else if !HasEnoughOptionsForAi(item.OcrText) then
      JsonStep(SavedWithoutAi(Stored(SkippedResult(item, now), item.ImagePath)), 0,
        d.1.(files := d.1.files + SavedFiles(c, item.ImagePath)))
    else AfterAi(c, d.1, item, onDisk, run)
  }

  /** Stage two for a queued item: onDisk are the results already saved, ai(a, prompt) the
    * AI's reply at attempt a, parseJson the JSON parser, now the clock. */
  function JsonStage(c: Config, st: State, item: OcrQueueItem, onDisk: seq<AnswerResult>,
                     ai: (nat, string) -> Option<string>, parseJson: string -> Option<Members>, now: int): JsonStep
  {
    JsonStageWith(c, st, item, onDisk, AiStage(item, ai, parseJson, now), now)
  }

  // ---------------------------------------------------------------------------
  // What the stages promise
  // ---------------------------------------------------------------------------

  /** Stage one starts exactly when auto-answer is on and the path is not marked, and queues
    * exactly when the image's hash is not known either; every image it starts is marked and
    * has its hash recorded, and a duplicate leaves neither the image nor its marker. */
  lemma ImageStageOutcomes(c: Config, st: State, imagePath: string, imageHash: Option<string>,
                           read: OcrQueueItem, ocrCalls: nat)
    ensures var s := ImageStage(c, st, imagePath, imageHash, read, ocrCalls);
      && (s.outcome == NotStarted <==> (!c.autoAnswer || imagePath in st.processedFiles))
      && (s.outcome.Queued? <==> (c.autoAnswer && imagePath !in st.processedFiles
                                  && !(imageHash.Some? && Upper(imageHash.value) in st.imageHashes)))
      && (s.outcome == NotStarted ==> s == ImageStep(NotStarted, 0, st))
      && (s.outcome != NotStarted ==>
            imagePath in s.after.processedFiles && (imageHash.Some? ==> Upper(imageHash.value) in s.after.imageHashes))
      && (s.outcome == DuplicateImage ==>
            s.ocrCalls == 0 && imagePath !in s.after.files && MarkerPath(c.outputDir, imagePath) !in s.after.files)
  {
  }

  /** Stage one takes a path up at most once: on the state it leaves, the same path is not
    * started again, whatever its hash. */
  lemma {:induction false} ImageStageOnce(c: Config, st: State, imagePath: string, imageHash: Option<string>,
                                          read: OcrQueueItem, ocrCalls: nat, hash2: Option<string>,
                                          read2: OcrQueueItem, ocrCalls2: nat)
    ensures var s := ImageStage(c, st, imagePath, imageHash, read, ocrCalls).after;
      ImageStage(c, s, imagePath, hash2, read2, ocrCalls2) == ImageStep(NotStarted, 0, s)
  {
    ImageStageOutcomes(c, st, imagePath, imageHash, read, ocrCalls);
    var s := ImageStage(c, st, imagePath, imageHash, read, ocrCalls).after;
    ImageStageOutcomes(c, s, imagePath, hash2, read2, ocrCalls2);
  }

  /** The item queued for an image carries its path and file name and a confidence flag that
    * tells whether its text passes the structure test; it took one to three OCR calls and
    * is appended to the queue, with its marker and OCR file written. */
  lemma QueuedShape(c: Config, st: State, imagePath: string, imageHash: Option<string>,
                    ocr: nat -> Option<string>, mock: string, vision: Option<string>)
    ensures var s := ImageStage(c, st, imagePath, imageHash, QueuedItem(imagePath, ocr, mock, c.visionAvailable, vision),
                                OcrFrom(ocr, mock).attempts);
      s.outcome.Queued? ==>
        var item := s.outcome.item;
        && item.ImagePath == imagePath && item.FileName == FileName(imagePath)
        && item.LowConfidence == !Likely(item.OcrText)
        && 1 <= s.ocrCalls <= MaxOcrAttempts
        && s.after.jsonQueue == st.jsonQueue + [item]
        && MarkerPath(c.outputDir, imagePath) in s.after.files && OcrJsonPath(c.outputDir, imagePath) in s.after.files
  {
    var run := OcrFrom(ocr, mock);
    VisionOnlyWhenUnlikely(run.text, c.visionAvailable, vision);
  }

  /** Stage one never forgets: the ledgers only grow and stage two's ledgers are untouched. */
  lemma ImageStageLedgers(c: Config, st: State, imagePath: string, imageHash: Option<string>,
                          read: OcrQueueItem, ocrCalls: nat)
    ensures var s := ImageStage(c, st, imagePath, imageHash, read, ocrCalls).after;
      && st.processedFiles <= s.processedFiles && st.imageHashes <= s.imageHashes && st.jsonQueue <= s.jsonQueue
      && s.ocrHistory == st.ocrHistory && s.questionIds == st.questionIds
      && s.questionNumbers == st.questionNumbers && s.contentHashes == st.contentHashes
      && s.imageQueue == st.imageQueue
  {
  }

  /** Stage two, whatever the AI run: no AI call exactly when the item is dropped by the
    * duplicate checks or lacks the options to ask about; only a failed call unmarks the image
    * and deletes its marker. */
  lemma JsonStageWithOutcomes(c: Config, st: State, item: OcrQueueItem, onDisk: seq<AnswerResult>, run: AiRun, now: int)
    requires run.calls > 0
    ensures var s := JsonStageWith(c, st, item, onDisk, run, now);
      && (s.aiCalls == 0 <==> (s.outcome == DuplicateOcr || s.outcome == DuplicateMeta || s.outcome.SavedWithoutAi?))
      && (s.aiCalls != 0 ==> s.aiCalls == run.calls)
      && (s.outcome.SavedWithoutAi? ==> !HasEnoughOptionsForAi(item.OcrText))
      && (s.outcome == Failed <==> (s.aiCalls != 0 && run.result.None?))
      && (s.outcome == Failed ==>
            item.ImagePath !in s.after.processedFiles && MarkerPath(c.outputDir, item.ImagePath) !in s.after.files)
      && (s.outcome != Failed ==> s.after.processedFiles == st.processedFiles)
  {
    var d := DedupStage(c, st, item, onDisk);
    DedupLedgers(c, st, item, onDisk);
    DedupOutcome(c, st, item, onDisk);
    if d.0.None? && HasEnoughOptionsForAi(item.OcrText) {
      AfterAiOutcomes(c, d.1, item, onDisk, run);
    }
  }

  /** The duplicate checks only ever drop an item as a duplicate. */
  lemma DedupOutcome(c: Config, st: State, item: OcrQueueItem, onDisk: seq<AnswerResult>)
    ensures var d := DedupStage(c, st, item, onDisk); d.0 == None || d.0 == Some(DuplicateOcr) || d.0 == Some(DuplicateMeta)
  {
  }

  /** After an AI run: every run's calls are counted, and the outcome is a failure exactly
    * when no attempt produced a result, which alone unmarks the image and deletes its marker. */
  lemma AfterAiOutcomes(c: Config, st: State, item: OcrQueueItem, onDisk: seq<AnswerResult>, run: AiRun)
    ensures var s := AfterAi(c, st, item, onDisk, run);
      && s.aiCalls == run.calls
      && (s.outcome.Failed? || s.outcome.DuplicateContent? || s.outcome.Saved?)
      && (s.outcome == Failed <==> run.result.None?)
      && (s.outcome == Failed ==>
            item.ImagePath !in s.after.processedFiles && MarkerPath(c.outputDir, item.ImagePath) !in s.after.files)
      && (s.outcome != Failed ==> s.after.processedFiles == st.processedFiles)
  {
  }

  /** The duplicate checks retain a confident text unless it is a near duplicate, and
    * remember the id and number of an item they keep. */
  lemma DedupLedgers(c: Config, st: State, item: OcrQueueItem, onDisk: seq<AnswerResult>)
    ensures var d := DedupStage(c, st, item, onDisk); var m := ExtractQuestionMeta(item.OcrText);
      && d.1.imageHashes == st.imageHashes && d.1.imageQueue == st.imageQueue && d.1.jsonQueue == st.jsonQueue
      && d.1.processedFiles == st.processedFiles && d.1.contentHashes == st.contentHashes
      && d.1.ocrHistory == (if item.LowConfidence || d.0 == Some(DuplicateOcr) then st.ocrHistory else st.ocrHistory + [item])
      && d.1.questionIds == (if d.0.Some? then st.questionIds else Remembered(st.questionIds, m.id))
      && d.1.questionNumbers == (if d.0.Some? then st.questionNumbers else Remembered(st.questionNumbers, m.number))
  {
    var m := ExtractQuestionMeta(item.OcrText);
    var d := DedupStage(c, st, item, onDisk);
    if !item.LowConfidence && NearDuplicateIn(item.OcrText, st.ocrHistory) {
      assert d.0 == Some(DuplicateOcr) && d.1 == st.(files := d.1.files);
    } else {
      var kept := if item.LowConfidence then st else st.(ocrHistory := st.ocrHistory + [item]);
      if MetaKnown(m.id, m.number, st.questionIds, st.questionNumbers, onDisk) {
        assert d.0 == Some(DuplicateMeta) && d.1 == kept.(files := d.1.files);
      } else {
        assert d == (None, kept.(questionIds := Remembered(st.questionIds, m.id),
                                 questionNumbers := Remembered(st.questionNumbers, m.number)));
      }
    }
  }

  /** Stage two, whatever the AI run, never forgets: the image ledger and the queues are
    * untouched and the other ledgers only grow. */
  lemma JsonStageWithLedgers(c: Config, st: State, item: OcrQueueItem, onDisk: seq<AnswerResult>, run: AiRun, now: int)
    ensures var s := JsonStageWith(c, st, item, onDisk, run, now).after;
      && s.imageHashes == st.imageHashes && s.imageQueue == st.imageQueue && s.jsonQueue == st.jsonQueue
      && st.ocrHistory <= s.ocrHistory && st.questionIds <= s.questionIds
      && st.questionNumbers <= s.questionNumbers && st.contentHashes <= s.contentHashes
  {
    DedupLedgers(c, st, item, onDisk);
    var d := DedupStage(c, st, item, onDisk);
    var s := JsonStageWith(c, st, item, onDisk, run, now).after;
    assert s.ocrHistory == d.1.ocrHistory && s.questionIds == d.1.questionIds && s.questionNumbers == d.1.questionNumbers;
  }

  /** Stage two makes at most three AI calls, and a failure ends with a call that threw. */
  lemma JsonStageCalls(c: Config, st: State, item: OcrQueueItem, onDisk: seq<AnswerResult>,
                       ai: (nat, string) -> Option<string>, parseJson: string -> Option<Members>, now: int)
    ensures var s := JsonStage(c, st, item, onDisk, ai, parseJson, now);
      && s.aiCalls <= MaxAiAttempts
      && (s.aiCalls == 0 <==> (s.outcome == DuplicateOcr || s.outcome == DuplicateMeta || s.outcome.SavedWithoutAi?))
      && (s.outcome == Failed ==> ai(s.aiCalls, PromptFor(item.OcrText, s.aiCalls)).None?)
  {
    var run := AiStage(item, ai, parseJson, now);
    JsonStageWithOutcomes(c, st, item, onDisk, run, now);
  }

  /** What stage two saves after asking the AI either has a question that covers the OCR or
    * is cleared down to its OCR and meta; it is filed under the image's name, its content key
    * is remembered and the result file is written. A duplicate answer deletes the image, its
    * result and its marker. */
  lemma SavedShape(c: Config, st: State, item: OcrQueueItem, onDisk: seq<AnswerResult>, run: AiRun, now: int)
    ensures var s := JsonStageWith(c, st, item, onDisk, run, now);
      && (s.outcome.Saved? ==>
            var r := s.outcome.saved;
            && ((!IsBlank(r.Question) && CoversOcr(BaseOcrForAi(item.OcrText), r.Question, r.Options)) || Cleared(r))
            && r.FileName == FileName(item.ImagePath) && r.ImagePath == item.ImagePath
            && Upper(BuildContentKey(r)) in s.after.contentHashes
            && ResultPath(c.outputDir, item.ImagePath) in s.after.files)
      && (s.outcome.DuplicateContent? ==>
            && item.ImagePath !in s.after.files && ResultPath(c.outputDir, item.ImagePath) !in s.after.files
            && MarkerPath(c.outputDir, item.ImagePath) !in s.after.files)
  {
    var s := JsonStageWith(c, st, item, onDisk, run, now);
    if s.outcome.Saved? {
      SavedByAi(c, st, item, onDisk, run, now);
      var r := Finalize(run.result.value, item.OcrText);
      FinalizeShape(run.result.value, item.OcrText);
      ContentKeyReadsContentOnly(Stored(r, item.ImagePath), r);
    } else if s.outcome.DuplicateContent? {
      DedupOutcome(c, st, item, onDisk);
    }
  }

  /** A confident text that is a near duplicate of a retained text is dropped with its files
    * before anything else happens. */
  lemma {:induction false} NearDuplicateDropped(c: Config, st: State, item: OcrQueueItem, onDisk: seq<AnswerResult>,
                                                run: AiRun, now: int)
    requires !item.LowConfidence
    requires exists k :: 0 <= k < |st.ocrHistory| && IsNearDuplicate(item.OcrText, st.ocrHistory[k].OcrText)
    ensures JsonStageWith(c, st, item, onDisk, run, now)
      == JsonStep(DuplicateOcr, 0, st.(files := st.files - DroppedFiles(c, item.ImagePath)))
  {
    NearDuplicateInExists(item.OcrText, st.ocrHistory);
  }

  /** Once a confident text has passed stage two's first check, a later confident text that is
    * a near duplicate of it is dropped. */
  lemma LaterNearDuplicateDropped(c: Config, st: State, first: OcrQueueItem, onDisk: seq<AnswerResult>, run: AiRun,
                                  now: int, second: OcrQueueItem, onDisk2: seq<AnswerResult>, run2: AiRun, now2: int)
    requires !first.LowConfidence && !second.LowConfidence && IsNearDuplicate(second.OcrText, first.OcrText)
    requires JsonStageWith(c, st, first, onDisk, run, now).outcome != DuplicateOcr
    ensures var s := JsonStageWith(c, st, first, onDisk, run, now).after;
      JsonStageWith(c, s, second, onDisk2, run2, now2).outcome == DuplicateOcr
  {
    var s := JsonStageWith(c, st, first, onDisk, run, now).after;
    KeptInHistory(c, st, first, onDisk, run, now);
    assert s.ocrHistory[|st.ocrHistory|] == first;
    NearDuplicateDropped(c, s, second, onDisk2, run2, now2);
  }

  /** A confident text that is not dropped as a near duplicate joins the history. */
  lemma KeptInHistory(c: Config, st: State, item: OcrQueueItem, onDisk: seq<AnswerResult>, run: AiRun, now: int)
    requires !item.LowConfidence
    requires JsonStageWith(c, st, item, onDisk, run, now).outcome != DuplicateOcr
    ensures JsonStageWith(c, st, item, onDisk, run, now).after.ocrHistory == st.ocrHistory + [item]
  {
    var d := DedupStage(c, st, item, onDisk);
    DedupLedgers(c, st, item, onDisk);
    assert d.0 != Some(DuplicateOcr);
    JsonStageWithLedgers(c, st, item, onDisk, run, now);
    assert JsonStageWith(c, st, item, onDisk, run, now).after.ocrHistory == d.1.ocrHistory;
  }

  /** An item whose id or number is known is dropped before the AI is asked. */
  lemma KnownMetaDropped(c: Config, st: State, item: OcrQueueItem, onDisk: seq<AnswerResult>, run: AiRun, now: int)
    requires var m := ExtractQuestionMeta(item.OcrText); MetaKnown(m.id, m.number, st.questionIds, st.questionNumbers, onDisk)
    ensures var s := JsonStageWith(c, st, item, onDisk, run, now);
      (s.outcome == DuplicateOcr || s.outcome == DuplicateMeta) && s.aiCalls == 0
      && s.after.files == st.files - DroppedFiles(c, item.ImagePath)
  {
  }

  /** Once an item with an id has passed the duplicate checks, a later item with the same id in
    * any case is dropped as a duplicate question, unless its text is dropped first. */
  lemma LaterSameIdDropped(c: Config, st: State, first: OcrQueueItem, onDisk: seq<AnswerResult>, run: AiRun,
                           now: int, second: OcrQueueItem, onDisk2: seq<AnswerResult>, run2: AiRun, now2: int)
    requires var id := ExtractQuestionMeta(first.OcrText).id; var id2 := ExtractQuestionMeta(second.OcrText).id;
      Present(id) && Present(id2) && EqualsIgnoreCase(id2.value, id.value)
    requires var o := JsonStageWith(c, st, first, onDisk, run, now).outcome; o != DuplicateOcr && o != DuplicateMeta
    ensures var s := JsonStageWith(c, st, first, onDisk, run, now).after;
      var o2 := JsonStageWith(c, s, second, onDisk2, run2, now2).outcome;
      o2 == DuplicateOcr || o2 == DuplicateMeta
  {
    var m := ExtractQuestionMeta(first.OcrText);
    var m2 := ExtractQuestionMeta(second.OcrText);
    var s := JsonStageWith(c, st, first, onDisk, run, now).after;
    KeptRemembersMeta(c, st, first, onDisk, run, now);
    MetaGate(m.id, m.number, m2.id, st.questionIds, s.questionNumbers, onDisk2);
    SameIdKnown(m2.id, m2.number, s.questionIds, s.questionNumbers, onDisk2);
    KnownMetaDropped(c, s, second, onDisk2, run2, now2);
  }

  /** An item that passes the duplicate checks leaves its id and number remembered. */
  lemma KeptRemembersMeta(c: Config, st: State, item: OcrQueueItem, onDisk: seq<AnswerResult>, run: AiRun, now: int)
    requires var o := JsonStageWith(c, st, item, onDisk, run, now).outcome; o != DuplicateOcr && o != DuplicateMeta
    ensures var s := JsonStageWith(c, st, item, onDisk, run, now).after; var m := ExtractQuestionMeta(item.OcrText);
      s.questionIds == Remembered(st.questionIds, m.id) && s.questionNumbers == Remembered(st.questionNumbers, m.number)
  {
    DedupLedgers(c, st, item, onDisk);
    var d := DedupStage(c, st, item, onDisk);
    assert d.0.None?;
  }

  /** A known id makes the whole meta known, whatever the number. */
  lemma SameIdKnown(id: Option<string>, number: Option<string>, ids: set<string>, numbers: set<string>,
                    onDisk: seq<AnswerResult>)
    requires MetaKnown(id, None, ids, numbers, onDisk)
    ensures MetaKnown(id, number, ids, numbers, onDisk)
  {
  }

  /** The first cleared answer saved in a session is the last: every later cleared answer has
    * the same content key and is dropped as duplicate content. */
  lemma ClearedSavedOnce(c: Config, st: State, first: OcrQueueItem, onDisk: seq<AnswerResult>, run: AiRun,
                         now: int, second: OcrQueueItem, onDisk2: seq<AnswerResult>, run2: AiRun, now2: int)
    requires var o := JsonStageWith(c, st, first, onDisk, run, now).outcome; o.Saved? && Cleared(o.saved)
    ensures var s := JsonStageWith(c, st, first, onDisk, run, now).after;
      var o2 := JsonStageWith(c, s, second, onDisk2, run2, now2).outcome;
      !(o2.Saved? && Cleared(o2.saved))
  {
    var s := JsonStageWith(c, st, first, onDisk, run, now).after;
    var o2 := JsonStageWith(c, s, second, onDisk2, run2, now2).outcome;
    SavedByAi(c, st, first, onDisk, run, now);
    if o2.Saved? && Cleared(o2.saved) {
      SavedByAi(c, s, second, onDisk2, run2, now2);
      ClearedResultsCollide(run.result.value, run2.result.value, first.OcrText, second.OcrText);
      assert false;
    }
  }

  /** A saved answer is the finalized AI result filed under the image, its content key was
    * not known before and is remembered after. */
  lemma SavedByAi(c: Config, st: State, item: OcrQueueItem, onDisk: seq<AnswerResult>, run: AiRun, now: int)
    requires JsonStageWith(c, st, item, onDisk, run, now).outcome.Saved?
    ensures run.result.Some?
    ensures var s := JsonStageWith(c, st, item, onDisk, run, now); var r := Finalize(run.result.value, item.OcrText);
      && s.outcome.saved == Stored(r, item.ImagePath)
      && !ContentKnown(BuildContentKey(r), st.contentHashes, onDisk)
      && Upper(BuildContentKey(r)) in s.after.contentHashes
      && ResultPath(c.outputDir, item.ImagePath) in s.after.files
  {
    DedupLedgers(c, st, item, onDisk);
    DedupOutcome(c, st, item, onDisk);
  }

  /** Stage two's failure path unmarks the image "so that it can be tried again", but the
    * image's hash stays recorded: when the same image comes back, stage one drops it as a
    * duplicate image instead of retrying it. */
  lemma RetryAfterFailureIsDuplicate(c: Config, st: State, imagePath: string, hash: string, read: OcrQueueItem,
                                     ocrCalls: nat, onDisk: seq<AnswerResult>, ai: (nat, string) -> Option<string>,
                                     parseJson: string -> Option<Members>, now: int, read2: OcrQueueItem, ocrCalls2: nat)
    requires ImageStage(c, st, imagePath, Some(hash), read, ocrCalls).outcome.Queued?
    requires var s1 := ImageStage(c, st, imagePath, Some(hash), read, ocrCalls).after;
      JsonStage(c, s1, read, onDisk, ai, parseJson, now).outcome == Failed && read.ImagePath == imagePath
    ensures var s1 := ImageStage(c, st, imagePath, Some(hash), read, ocrCalls).after;
      var s2 := JsonStage(c, s1, read, onDisk, ai, parseJson, now).after;
      && imagePath !in s2.processedFiles
      && ImageStage(c, s2, imagePath, Some(hash), read2, ocrCalls2).outcome == DuplicateImage
  {
    ImageStageOutcomes(c, st, imagePath, Some(hash), read, ocrCalls);
    var s1 := ImageStage(c, st, imagePath, Some(hash), read, ocrCalls).after;
    var run := AiStage(read, ai, parseJson, now);
    JsonStageWithOutcomes(c, s1, read, onDisk, run, now);
    JsonStageWithLedgers(c, s1, read, onDisk, run, now);
    var s2 := JsonStage(c, s1, read, onDisk, ai, parseJson, now).after;
    ImageStageOutcomes(c, s2, imagePath, Some(hash), read2, ocrCalls2);
  }

  // ---------------------------------------------------------------------------
  // One AI attempt and the AI loop, as the methods run them
  // ---------------------------------------------------------------------------

  /** The reply handling of one AI attempt: parse, fill the meta from the OCR, and recover
    * what is missing from the OCR. */
  method CompleteReply(ocrText: string, answer: string, parseJson: string -> Option<Members>) returns (parsed: Parsed)
    ensures parsed == MergedReply(ocrText, answer, parseJson)
  {
    parsed := ParseAIResponse(answer, parseJson);
    var p0 := parsed;
    if !Present(parsed.questionNumber) || !Present(parsed.questionId) {
      var metaFromOcr := ExtractQuestionMeta(ocrText);
      if !Present(parsed.questionNumber) && Present(metaFromOcr.number) {
        parsed := parsed.(questionNumber := metaFromOcr.number);
      }
      if !Present(parsed.questionId) && Present(metaFromOcr.id) {
        parsed := parsed.(questionId := metaFromOcr.id);
      }
    }
    assert parsed == FillMeta(p0, ExtractQuestionMeta(ocrText));
    var p1 := parsed;
    if IsBlank(parsed.question) || !HasOptions(parsed.options) {
      var recovered := TryRecoverFromOcr(ocrText, answer);
      if !IsBlank(recovered.question) {
        parsed := parsed.(question := recovered.question);
      }
      if HasOptions(recovered.options) {
        parsed := parsed.(options := recovered.options);
      }
      if !IsBlank(recovered.answer) && IsBlank(parsed.answer) {
        parsed := parsed.(answer := recovered.answer, answerText := recovered.answerText);
      }
    }
    assert parsed == MergeRecovery(p1, RecoveryOf(ocrText, answer));
  }

  /** The record of one AI reply, as the loop body builds it. */
  method BuildAttempt(item: OcrQueueItem, answer: string, parseJson: string -> Option<Members>, now: int)
    returns (result: AnswerResult)
    ensures result == Builder(item, parseJson, now)(answer)
  {
    var parsed := CompleteReply(item.OcrText, answer, parseJson);
    result := AnswerResult(item.FileName, item.ImagePath, OrEmpty(parsed.questionNumber),
      OrEmpty(parsed.questionId), parsed.question, parsed.options, parsed.answer, parsed.answerText,
      answer, item.OcrText, now);
  }

  /** The AI retry loop of stage two, given the prompt of each attempt, the record built
    * from a reply (BuildAttempt) and the test that ends the loop early (Accepted). */
  method RunAi(ai: (nat, string) -> Option<string>, prompt: nat -> string, build: string -> AnswerResult,
               accept: AnswerResult -> bool)
    returns (run: AiRun)
    ensures run == AiRounds(ai, prompt, build, accept, 1)
  {
    var attempt: nat := 1;
    while true
      invariant 1 <= attempt <= MaxAiAttempts
      invariant AiRounds(ai, prompt, build, accept, attempt) == AiRounds(ai, prompt, build, accept, 1)
      decreases MaxAiAttempts - attempt
    {
      var ocrForAi := prompt(attempt);
      var reply := ai(attempt, ocrForAi);
      if reply.None? {
        return AiRun(None, attempt);
      }
      var result := build(reply.value);
      if accept(result) || attempt == MaxAiAttempts {
        return AiRun(Some(result), attempt);
      }
      attempt := attempt + 1;
    }
  }

  /** The OCR engines CreateOcrService chooses between. */
  datatype OcrEngine = PaddleEngine | VisionEngine | CommandLineEngine

  /** CreateOcrService: the provider, trimmed and lower-cased, names the main OCR engine; any
    * name it does not know selects the command-line engine. */
  function MainOcrEngine(provider: string): (k: OcrEngine)
    ensures k == VisionEngine <==> Lower(Trim(provider)) in {"googlevision", "vision", "gcv"}
    ensures k == PaddleEngine <==> Lower(Trim(provider)) == "paddle"
  {
    var p := Lower(Trim(provider));
    if p == "paddle" then PaddleEngine
    else if p == "googlevision" || p == "vision" || p == "gcv" then VisionEngine
    else CommandLineEngine
  }

  /** The Vision fallback is switched off only for the exact name "googlevision" (ignoring
    * case), so the aliases "gcv" and "vision", and a padded " googlevision", make Vision the
    * main engine while keeping a Vision fallback beside it. */
  lemma VisionAliasKeepsFallback()
    ensures MainOcrEngine("gcv") == VisionEngine && !EqualsIgnoreCase("gcv", "googlevision")
    ensures MainOcrEngine(" googlevision") == VisionEngine && !EqualsIgnoreCase(" googlevision", "googlevision")
  {
    assert Trim("gcv") == "gcv" by { TrimFixed("gcv"); }
    assert Lower("gcv") == "gcv";
    assert Trim(" googlevision") == "googlevision" by {
      TrimAfterWhite(' ', "googlevision");
      TrimFixed("googlevision");
      assert " googlevision" == [' '] + "googlevision";
    }
    assert Lower("googlevision") == "googlevision";
  }

  /** CapturePipeline. The ledgers are static in the application and shared by every pipeline
    * of the process; here they belong to one pipeline. Case-insensitive sets hold the
    * upper-cased forms of their strings. files is the set of paths that exist. */
  class CapturePipeline {
    const autoAnswer: bool
    const outputDir: string
    const visionAvailable: bool
    var imageQueue: seq<string>
    var jsonQueue: seq<OcrQueueItem>
    var processedFiles: set<string>
    var imageHashes: set<string>
    var ocrHistory: seq<OcrQueueItem>
    var questionIds: set<string>
    var questionNumbers: set<string>
    var contentHashes: set<string>
    var files: set<string>

    function Setup(): Config {
      Config(autoAnswer, outputDir, visionAvailable)
    }

    function Snapshot(): State
      reads this
    {
      State(imageQueue, jsonQueue, processedFiles, imageHashes, ocrHistory, questionIds, questionNumbers,
        contentHashes, files)
    }

    /** CapturePipeline(settings): a cloud OCR fallback exists when there is a Vision key and
      * OcrProvider is not "googlevision" ignoring case. */
    constructor (s: ProcessingSettings, env: string -> Option<string>, projectRoot: string, existing: set<string>)
      ensures autoAnswer == s.EnableAutoAnswer && outputDir == GetOutputDirectory(s, projectRoot)
      ensures visionAvailable == (!IsBlank(GetGoogleVisionApiKey(s, env)) && !EqualsIgnoreCase(s.OcrProvider, "googlevision"))
      ensures imageQueue == [] && jsonQueue == [] && ocrHistory == []
      ensures processedFiles == {} && imageHashes == {} && questionIds == {} && questionNumbers == {}
      ensures contentHashes == {} && files == existing
    {
      autoAnswer := s.EnableAutoAnswer;
      outputDir := GetOutputDirectory(s, projectRoot);
      visionAvailable := !IsBlank(GetGoogleVisionApiKey(s, env)) && !EqualsIgnoreCase(s.OcrProvider, "googlevision");
      imageQueue := [];
      jsonQueue := [];
      processedFiles := {};
      imageHashes := {};
      ocrHistory := [];
      questionIds := {};
      questionNumbers := {};
      contentHashes := {};
      files := existing;
    }

    /** EnqueueImage: blank paths are ignored. */
    method EnqueueImage(imagePath: string)
      modifies this`imageQueue
      ensures imageQueue == if IsBlank(imagePath) then old(imageQueue) else old(imageQueue) + [imagePath]
    {
      if IsBlank(imagePath) {
        return;
      }
      imageQueue := imageQueue + [imagePath];
    }

    /** TryMarkProcessing: true, and the path marked with its marker file written, exactly
      * when auto-answer is on and the path was not marked yet. */
    method TryMarkProcessing(imagePath: string) returns (ok: bool)
      modifies this`processedFiles, this`files
      ensures ok == (autoAnswer && imagePath !in old(processedFiles))
      ensures processedFiles == if ok then old(processedFiles) + {imagePath} else old(processedFiles)
      ensures files == if ok then old(files) + {MarkerPath(outputDir, imagePath)} else old(files)
    {
      if !autoAnswer {
        return false;
      }
      if imagePath in processedFiles {
        return false;
      }
      processedFiles := processedFiles + {imagePath};
      files := files + {MarkerPath(outputDir, imagePath)};
      ok := true;
    }

    /** IsDuplicateImage: hash is the image's SHA-256 in hex, None when it cannot be read. A
      * hash seen before is a duplicate; a new one is recorded; an error is no duplicate. */
    method IsDuplicateImage(hash: Option<string>) returns (dup: bool)
      modifies this`imageHashes
      ensures dup == (hash.Some? && Upper(hash.value) in old(imageHashes))
      ensures imageHashes == if hash.Some? && !dup then old(imageHashes) + {Upper(hash.value)} else old(imageHashes)
    {
      if hash.None? {
        return false;
      }
      var h := Upper(hash.value);
      if h in imageHashes {
        return true;
      }
      imageHashes := imageHashes + {h};
      dup := false;
    }

    /** IsDuplicateOcrText: a near duplicate of a retained text is reported and not retained;
      * any other text is retained. */
    method IsDuplicateOcrText(current: OcrQueueItem) returns (dup: bool)
      modifies this`ocrHistory
      ensures dup == NearDuplicateIn(current.OcrText, old(ocrHistory))
      ensures ocrHistory == if dup then old(ocrHistory) else old(ocrHistory) + [current]
    {
      dup := FindNearDuplicate(current.OcrText, ocrHistory);
      if dup {
        return;
      }
      ocrHistory := ocrHistory + [current];
    }

    /** IsDuplicateByMeta: onDisk are the result files that could be read. */
    method IsDuplicateByMeta(id: Option<string>, number: Option<string>, onDisk: seq<AnswerResult>) returns (dup: bool)
      ensures dup == MetaKnown(id, number, questionIds, questionNumbers, onDisk)
    {
      if !Present(id) && !Present(number) {
        return false;
      }
      if Present(id) && Upper(id.value) in questionIds {
        return true;
      }
      if Present(number) && Upper(number.value) in questionNumbers {
        return true;
      }
      var i := 0;
      while i < |onDisk|
        invariant 0 <= i <= |onDisk|
        invariant forall k :: 0 <= k < i ==>
          !(Present(id) && EqualsIgnoreCase(onDisk[k].QuestionId, id.value))
          && !(Present(number) && EqualsIgnoreCase(onDisk[k].QuestionNumber, number.value))
      {
        if Present(id) && EqualsIgnoreCase(onDisk[i].QuestionId, id.value) {
          return true;
        }
        if Present(number) && EqualsIgnoreCase(onDisk[i].QuestionNumber, number.value) {
          return true;
        }
        i := i + 1;
      }
      dup := false;
    }

    /** RememberMeta: records the id and the number where present. */
    method RememberMeta(id: Option<string>, number: Option<string>)
      modifies this`questionIds, this`questionNumbers
      ensures questionIds == Remembered(old(questionIds), id)
      ensures questionNumbers == Remembered(old(questionNumbers), number)
    {
      if !Present(id) && !Present(number) {
        return;
      }
      if Present(id) {
        questionIds := questionIds + {Upper(id.value)};
      }
      if Present(number) {
        questionNumbers := questionNumbers + {Upper(number.value)};
      }
    }

    /** IsDuplicateByContent: a key seen in this session or on disk is a duplicate; a new key
      * is recorded. */
    method IsDuplicateByContent(result: AnswerResult, onDisk: seq<AnswerResult>) returns (dup: bool)
      modifies this`contentHashes
      ensures dup == ContentKnown(BuildContentKey(result), old(contentHashes), onDisk)
      ensures contentHashes == if dup then old(contentHashes) else old(contentHashes) + {Upper(BuildContentKey(result))}
    {
      var contentKey := BuildContentKey(result);
      if Upper(contentKey) in contentHashes {
        return true;
      }
      dup := FindKeyOnDisk(contentKey, onDisk);
      if dup {
        return;
      }
      contentHashes := contentHashes + {Upper(contentKey)};
    }

    /** The OCR retry loop of stage one. */
    method RunOcr(ocr: nat -> Option<string>, mock: string) returns (run: OcrRun)
      ensures run == OcrFrom(ocr, mock)
    {
      var attempt: nat := 1;
      while true
        invariant 1 <= attempt <= MaxOcrAttempts
        invariant OcrRounds(ocr, mock, Likely, attempt) == OcrFrom(ocr, mock)
        decreases MaxOcrAttempts - attempt
      {
        var ocrText := OcrText(ocr(attempt), mock);
        var isLikely := IsLikelyQuestion(ocrText) && HasEnoughOptionsForAi(ocrText);
        if isLikely || attempt == MaxOcrAttempts {
          return OcrRun(ocrText, attempt);
        }
        attempt := attempt + 1;
      }
    }

    /** HandleImageStageAsync(imagePath): imageHash is the image's hash (None when it cannot
      * be read), ocr(a) the OCR engine's reply at attempt a, hashCode the string hash the
      * sample text is derived from, vision the cloud OCR's reply. */
    method HandleImageStage(imagePath: string, imageHash: Option<string>, ocr: nat -> Option<string>,
                            hashCode: string -> int, vision: Option<string>)
      returns (outcome: ImageOutcome, ocrCalls: nat)
      modifies this
      ensures var mock := MockOcr.ExtractText(imagePath, hashCode);
        ImageStep(outcome, ocrCalls, Snapshot()) == ImageStage(Setup(), old(Snapshot()), imagePath, imageHash,
          QueuedItem(imagePath, ocr, mock, visionAvailable, vision), OcrFrom(ocr, mock).attempts)
    {
      var stop := BeginImage(imagePath, imageHash);
      if stop.Some? {
        return stop.value, 0;
      }
      var mock := MockOcr.ExtractText(imagePath, hashCode);
      var queuedItem;
      queuedItem, ocrCalls := QueueImage(imagePath, ocr, mock, vision);
      outcome := Queued(queuedItem);
    }

    /** The opening of HandleImageStageAsync: the outcome it stops with, if it stops. */
    method BeginImage(imagePath: string, imageHash: Option<string>) returns (stop: Option<ImageOutcome>)
      modifies this
      ensures match StartImage(Setup(), old(Snapshot()), imagePath, imageHash)
        case Stop(step) => stop == Some(step.outcome) && step.ocrCalls == 0 && Snapshot() == step.after
        case Go(marked) => stop == None && Snapshot() == marked
    {
      ghost var st := Snapshot();
      var marked := TryMarkProcessing(imagePath);
      if !marked {
        assert Snapshot() == st;
        return Some(NotStarted);
      }
      ghost var m := Snapshot();
      assert m == st.(processedFiles := st.processedFiles + {imagePath},
                      files := st.files + {MarkerPath(outputDir, imagePath)});
      var dup := IsDuplicateImage(imageHash);
      if dup {
        files := files - {imagePath, MarkerPath(outputDir, imagePath)};
        assert Snapshot() == m.(files := m.files - {imagePath, MarkerPath(outputDir, imagePath)});
        return Some(DuplicateImage);
      }
      assert Snapshot() == m.(imageHashes := HashesAfter(st.imageHashes, imageHash));
      stop := None;
    }

    /** The close of HandleImageStageAsync: the image is read and its item queued. */
    method QueueImage(imagePath: string, ocr: nat -> Option<string>, mock: string, vision: Option<string>)
      returns (queuedItem: OcrQueueItem, ocrCalls: nat)
      modifies this
      ensures queuedItem == QueuedItem(imagePath, ocr, mock, visionAvailable, vision)
      ensures ocrCalls == OcrFrom(ocr, mock).attempts
      ensures Snapshot() == QueueStage(Setup(), old(Snapshot()), imagePath, queuedItem, ocrCalls).after
    {
      queuedItem, ocrCalls := ReadImage(imagePath, ocr, mock, vision);
      files := files + {OcrJsonPath(outputDir, imagePath)};
      jsonQueue := jsonQueue + [queuedItem];
    }

    /** The OCR of stage one with the cloud fallback, and the item it queues. */
    method ReadImage(imagePath: string, ocr: nat -> Option<string>, mock: string, vision: Option<string>)
      returns (queuedItem: OcrQueueItem, ocrCalls: nat)
      ensures queuedItem == QueuedItem(imagePath, ocr, mock, visionAvailable, vision)
      ensures ocrCalls == OcrFrom(ocr, mock).attempts
    {
      var run := RunOcr(ocr, mock);
      var ocrText := run.text;
      var isLikely := Likely(ocrText);
      if visionAvailable && (!isLikely || !HasEnoughOptionsForAi(ocrText)) {
        if vision.Some? && !IsBlank(vision.value) {
          ocrText := vision.value;
          isLikely := Likely(ocrText);
        }
      }
      queuedItem := OcrQueueItem(imagePath, FileName(imagePath), ocrText, !isLikely);
      ocrCalls := run.attempts;
    }

    /** The duplicate checks that open stage two. */
    method CheckDuplicates(item: OcrQueueItem, onDisk: seq<AnswerResult>) returns (dup: Option<JsonOutcome>)
      modifies this
      ensures (dup, Snapshot()) == DedupStage(Setup(), old(Snapshot()), item, onDisk)
    {
      ghost var st := Snapshot();
      if !item.LowConfidence {
        var dupOcr := IsDuplicateOcrText(item);
        if dupOcr {
          files := files - {item.ImagePath, MarkerPath(outputDir, item.ImagePath), OcrJsonPath(outputDir, item.ImagePath)};
          return Some(DuplicateOcr);
        }
      }
      ghost var kept := Snapshot();
      assert kept == if item.LowConfidence then st else st.(ocrHistory := st.ocrHistory + [item]);
      var meta := ExtractQuestionMeta(item.OcrText);
      var dupMeta := IsDuplicateByMeta(meta.id, meta.number, onDisk);
      if dupMeta {
        files := files - {item.ImagePath, MarkerPath(outputDir, item.ImagePath), OcrJsonPath(outputDir, item.ImagePath)};
        assert Snapshot() == kept.(files := st.files - DroppedFiles(Setup(), item.ImagePath));
        return Some(DuplicateMeta);
      }
      RememberMeta(meta.id, meta.number);
      assert Snapshot() == kept.(questionIds := Remembered(st.questionIds, meta.id),
                                 questionNumbers := Remembered(st.questionNumbers, meta.number));
      dup := None;
    }

    /** The end of stage two once the AI loop has run. */
    method SaveAnswer(item: OcrQueueItem, run: AiRun, onDisk: seq<AnswerResult>) returns (outcome: JsonOutcome)
      modifies this
      ensures JsonStep(outcome, run.calls, Snapshot()) == AfterAi(Setup(), old(Snapshot()), item, onDisk, run)
    {
      if run.result.None? {
        processedFiles := processedFiles - {item.ImagePath};
        files := files - {MarkerPath(outputDir, item.ImagePath)};
        return Failed;
      }
      var result := Finalize(run.result.value, item.OcrText);
      outcome := StoreResult(item, result, onDisk);
    }

    /** The finalized answer: dropped with the image, its result and its marker when its
      * content is known, otherwise remembered and saved. */
    method StoreResult(item: OcrQueueItem, result: AnswerResult, onDisk: seq<AnswerResult>) returns (outcome: JsonOutcome)
      modifies this
      ensures var st := old(Snapshot()); var key := BuildContentKey(result);
        if ContentKnown(key, st.contentHashes, onDisk) then
          outcome == DuplicateContent(result)
          && Snapshot() == st.(files := st.files - {item.ImagePath, ResultPath(outputDir, item.ImagePath),
                                                    MarkerPath(outputDir, item.ImagePath)})
        else
          outcome == Saved(Stored(result, item.ImagePath))
          && Snapshot() == st.(contentHashes := st.contentHashes + {Upper(key)},
                               files := st.files + SavedFiles(Setup(), item.ImagePath))
    {
      ghost var st := Snapshot();
      var dup := IsDuplicateByContent(result, onDisk);
      if dup {
        assert Snapshot() == st;
        files := files - {item.ImagePath, ResultPath(outputDir, item.ImagePath), MarkerPath(outputDir, item.ImagePath)};
        return DuplicateContent(result);
      }
      assert Snapshot() == st.(contentHashes := st.contentHashes + {Upper(BuildContentKey(result))});
      files := files + {ResultPath(outputDir, item.ImagePath), MarkerPath(outputDir, item.ImagePath)};
      outcome := Saved(Stored(result, item.ImagePath));
    }

    /** HandleJsonStageAsync(item): onDisk are the result files already saved, ai(a, prompt) the
      * AI's reply at attempt a (None when the call throws), parseJson the JSON parser, now the
      * clock. aiCalls counts the AI calls. */
    method HandleJsonStage(item: OcrQueueItem, onDisk: seq<AnswerResult>, ai: (nat, string) -> Option<string>,
                           parseJson: string -> Option<Members>, now: int)
      returns (outcome: JsonOutcome, aiCalls: nat)
      modifies this
      ensures JsonStep(outcome, aiCalls, Snapshot()) == JsonStage(Setup(), old(Snapshot()), item, onDisk, ai, parseJson, now)
    {
      ghost var st := Snapshot();
      var dup := CheckDuplicates(item, onDisk);
      if dup.Some? {
        return dup.value, 0;
      }
      ghost var d := Snapshot();
      assert (None, d) == DedupStage(Setup(), st, item, onDisk);
      if !HasEnoughOptionsForAi(item.OcrText) {
        var skippedResult := SkippedResult(item, now);
        files := files + {ResultPath(outputDir, item.ImagePath), MarkerPath(outputDir, item.ImagePath)};
        assert Snapshot() == d.(files := d.files + SavedFiles(Setup(), item.ImagePath));
        return SavedWithoutAi(Stored(skippedResult, item.ImagePath)), 0;
      }
      var run := RunAi(ai, Prompts(item.OcrText), Builder(item, parseJson, now), Acceptor(item.OcrText));
      outcome := SaveAnswer(item, run, onDisk);
      aiCalls := run.calls;
    }
  }
}
