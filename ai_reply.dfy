/** The three parsers that turn the AI's reply into a question, options and an answer:
  * ParseAIResponse (the first balanced {...} object of the reply, read as JSON),
  * ParseFallbackPlainText (labelled plain-text lines) and TryRecoverFromOcr (the answer letter
  * from the reply, the question and options rebuilt from the OCR text).
  *
  * Each regular expression is modelled by the language it accepts on one line (the lines
  * of these parsers never hold a line break), with the backtracking resolved by hand. JSON
  * parsing is a parameter: a function from the extracted text to the members of the root
  * object, or None when the text is not valid JSON. */
module AiReply {
  import opened Text
  import opened Wrappers
  import opened OptionMaps
  import opened Heuristics
  import opened QuestionMeta

  /** The tuple (QuestionNumber, QuestionId, Question, Options, Answer, AnswerText); None
    * stands for null. */
  datatype Parsed = Parsed(
    questionNumber: Option<string>,
    questionId: Option<string>,
    question: string,
    options: Option<OptionMap>,
    answer: string,
    answerText: string)

  /** "" or one upper-case letter A..D. */
  predicate IsAnswer(a: string) { a == [] || (|a| == 1 && 'A' <= a[0] <= 'D') }

  /** Every key of o is one of "A", "B", "C", "D", and no two keys are equal ignoring case. */
  predicate ChoiceKeys(o: Option<OptionMap>) {
    o.Some? ==> (DistinctKeys(o.value, IgnoreCase)
      && forall i :: 0 <= i < |o.value| ==> |o.value[i].0| == 1 && 'A' <= o.value[i].0[0] <= 'D')
  }

  /** ToUpperInvariant of a captured choice letter. */
  function ChoiceKey(c: char): (k: string)
    requires IsChoiceLetter(c)
    ensures |k| == 1 && 'A' <= k[0] <= 'D'
    ensures EqualsIgnoreCase(k, [c])
  {
    [ToUpperChar(c)]
  }

  // ---------------------------------------------------------------------------
  // The brace scan of ParseAIResponse
  // ---------------------------------------------------------------------------

  /** braceCount after the loop has looked at s[start..i]: every '{' adds one and every '}'
    * takes one away, wherever they occur (inside JSON strings too). */
  function Depth(s: string, start: nat, i: nat): int
    requires start <= i <= |s|
    decreases i - start
  {
    if i == start then 0
    else Depth(s, start, i - 1) + (if s[i - 1] == '{' then 1 else if s[i - 1] == '}' then -1 else 0)
  }

  /** The first index at or after i where the count, including that index, is back to 0. */
  function CloseFrom(s: string, start: nat, i: nat): (r: Option<nat>)
    requires start <= i <= |s|
    ensures r.Some? ==> (i <= r.value < |s| && Depth(s, start, r.value + 1) == 0
      && forall j :: i < j <= r.value ==> Depth(s, start, j) != 0)
    ensures r.None? ==> forall j :: i < j <= |s| ==> Depth(s, start, j) != 0
    decreases |s| - i
  {
    if i == |s| then None
    else if Depth(s, start, i + 1) == 0 then Some(i)
    else CloseFrom(s, start, i + 1)
  }

  /** endIndex after the loop: where the object closes, or start when it never does. */
  function ObjectEnd(s: string, start: nat): nat
    requires start <= |s|
  {
    match CloseFrom(s, start, start)
    case Some(e) => e
    case None => start
  }

  /** The brace-counting loop of ParseAIResponse. */
  method FindObjectEnd(s: string, start: nat) returns (endIndex: nat)
    requires start <= |s|
    ensures endIndex == ObjectEnd(s, start)
  {
    var braceCount := 0;
    endIndex := start;
    var i := start;
    while i < |s|
      invariant start <= i <= |s|
      invariant braceCount == Depth(s, start, i)
      invariant CloseFrom(s, start, start) == CloseFrom(s, start, i)
      invariant endIndex == start
    {
      if s[i] == '{' { braceCount := braceCount + 1; }
      if s[i] == '}' { braceCount := braceCount - 1; }
      if braceCount == 0 {
        endIndex := i;
        return;
      }
      i := i + 1;
    }
  }

  /** Starting at a '{', a closing index exists only past the start; the text up to it ends
    * with '}', holds as many '}' as '{', and every proper prefix has more '{' than '}'. */
  lemma ClosedObject(s: string, start: nat)
    requires start < |s| && s[start] == '{'
    ensures ObjectEnd(s, start) == start <==> CloseFrom(s, start, start).None?
    ensures CloseFrom(s, start, start).Some? ==>
      var e := CloseFrom(s, start, start).value;
      s[e] == '}' && Depth(s, start, e + 1) == 0
      && forall j :: start < j <= e ==> Depth(s, start, j) > 0
  {
    assert Depth(s, start, start + 1) == 1;
    match CloseFrom(s, start, start)
    case None =>
    case Some(e) =>
      assert e > start;
      DepthPositive(s, start, e, e);
      assert Depth(s, start, e + 1) == Depth(s, start, e)
        + (if s[e] == '{' then 1 else if s[e] == '}' then -1 else 0);
  }

  lemma {:induction false} DepthPositive(s: string, start: nat, e: nat, j: nat)
    requires start < |s| && s[start] == '{'
    requires start < j <= e < |s|
    requires forall k :: start < k <= e ==> Depth(s, start, k) != 0
    ensures forall k :: start < k <= j ==> Depth(s, start, k) > 0
  {
    if j > start + 1 {
      DepthPositive(s, start, e, j - 1);
      assert Depth(s, start, j - 1) > 0;
      assert Depth(s, start, j) != 0;
    }
  }

  // ---------------------------------------------------------------------------
  // JSON as ParseAIResponse reads it
  // ---------------------------------------------------------------------------

  /** A JSON value as far as the parser distinguishes it; JOther is a number, a boolean or
    * an array. */
  datatype JsonValue = JNull | JString(str: string) | JObject(props: seq<(string, JsonValue)>) | JOther

  type Members = seq<(string, JsonValue)>

  /** root.TryGetProperty(name): the last member with that exact name. */
  function Property(ms: Members, name: string): (r: Option<JsonValue>)
    ensures r.Some? ==> exists i :: 0 <= i < |ms| && ms[i] == (name, r.value)
    ensures r.None? ==> forall i :: 0 <= i < |ms| ==> ms[i].0 != name
  {
    if ms == [] then None
    else if ms[|ms| - 1].0 == name then Some(ms[|ms| - 1].1)
    else Property(ms[..|ms| - 1], name)
  }

  /** GetString() returns (null for JNull) rather than throwing. */
  predicate IsStringOrNull(v: JsonValue) { v.JNull? || v.JString? }

  /** GetString() on the member name, when present, does not throw. */
  predicate FieldReadable(ms: Members, name: string) {
    Property(ms, name).None? || IsStringOrNull(Property(ms, name).value)
  }

  /** No member the parser reads makes GetString() throw. */
  predicate Readable(ms: Members) {
    FieldReadable(ms, "questionNumber") && FieldReadable(ms, "questionId")
    && FieldReadable(ms, "question") && FieldReadable(ms, "answer") && FieldReadable(ms, "answerText")
    && (Property(ms, "options").Some? && Property(ms, "options").value.JObject? ==>
      forall i :: 0 <= i < |Property(ms, "options").value.props| ==>
        IsStringOrNull(Property(ms, "options").value.props[i].1))
  }

  /** questionNumber / questionId: null when missing or JSON null. */
  function NullableField(ms: Members, name: string): Option<string>
    requires FieldReadable(ms, name)
  {
    match Property(ms, name)
    case None => None
    case Some(v) => if v.JString? then Some(v.str) else None
  }

  /** question / answer / answerText: GetString() ?? "", and "" when missing. */
  function TextField(ms: Members, name: string): string
    requires FieldReadable(ms, name)
  {
    match Property(ms, name)
    case None => []
    case Some(v) => if v.JString? then v.str else []
  }

  /** options[prop.Name] = GetString() ?? "" for every member of the options object, in a
    * dictionary with the default (ordinal) comparer. */
  function OptionsOfProps(props: seq<(string, JsonValue)>): (d: OptionMap)
    requires forall i :: 0 <= i < |props| ==> IsStringOrNull(props[i].1)
    ensures DistinctKeys(d, Ordinal)
    ensures forall i :: 0 <= i < |d| ==> exists j :: 0 <= j < |props| && props[j].0 == d[i].0
  {
    if props == [] then []
    else
      var last := props[|props| - 1];
      var prev := OptionsOfProps(props[..|props| - 1]);
      SetThenLookup(prev, last.0, if last.1.JString? then last.1.str else [], Ordinal);
      Set(prev, last.0, if last.1.JString? then last.1.str else [], Ordinal)
  }

  /** The tuple built from a parsed object. */
  function FromJson(ms: Members): Parsed
    requires Readable(ms)
  {
    var options := match Property(ms, "options")
      case Some(JObject(props)) => Some(OptionsOfProps(props))
      case _ => None;
    Parsed(NullableField(ms, "questionNumber"), NullableField(ms, "questionId"),
      TextField(ms, "question"), options, TextField(ms, "answer"), TextField(ms, "answerText"))
  }

  /** The position of the first '{' (IndexOf). */
  function FirstBrace(s: string, from: nat): (r: Option<nat>)
    requires from <= |s|
    ensures r.Some? ==> (from <= r.value < |s| && s[r.value] == '{'
      && forall j :: from <= j < r.value ==> s[j] != '{')
    ensures r.None? ==> forall j :: from <= j < |s| ==> s[j] != '{'
    decreases |s| - from
  {
    if from == |s| then None
    else if s[from] == '{' then Some(from)
    else FirstBrace(s, from + 1)
  }

  /** The JSON reading of the reply, or None when ParseAIResponse falls back to plain
    * text: there is no '{', the object never closes, the JSON does not parse, or a field the
    * parser reads holds something other than a string or null. */
  function JsonReply(s: string, parseJson: string -> Option<Members>): Option<Parsed> {
    match FirstBrace(s, 0)
    case None => None
    case Some(start) =>
      var e := ObjectEnd(s, start);
      if e > start then
        match parseJson(s[start..e + 1])
        case None => None
        case Some(ms) => if Readable(ms) then Some(FromJson(ms)) else None
      else None
  }

  /** ParseAIResponse(aiResponse) */
  function ReplyOf(s: string, parseJson: string -> Option<Members>): Parsed {
    match JsonReply(s, parseJson)
    case Some(p) => p
    case None => FallbackOf(s)
  }

  /** The loop over the members of the options object. */
  method CollectJsonOptions(props: seq<(string, JsonValue)>) returns (d: OptionMap)
    requires forall i :: 0 <= i < |props| ==> IsStringOrNull(props[i].1)
    ensures d == OptionsOfProps(props)
  {
    d := [];
    var i := 0;
    while i < |props|
      invariant 0 <= i <= |props|
      invariant d == OptionsOfProps(props[..i])
    {
      assert props[..i + 1][..i] == props[..i];
      d := Set(d, props[i].0, if props[i].1.JString? then props[i].1.str else [], Ordinal);
      i := i + 1;
    }
    assert props[..i] == props;
  }

  /** The fields read from a parsed object, with the loop over the options object. */
  method ReadJson(root: Members) returns (r: Parsed)
    requires Readable(root)
    ensures r == FromJson(root)
  {
    var options: Option<OptionMap> := None;
    match Property(root, "options") {
      case Some(JObject(props)) =>
        var d := CollectJsonOptions(props);
        options := Some(d);
      case _ =>
    }
    r := Parsed(NullableField(root, "questionNumber"), NullableField(root, "questionId"),
      TextField(root, "question"), options, TextField(root, "answer"), TextField(root, "answerText"));
  }

  /** The JSON branch of ParseAIResponse, with the brace-counting loop. */
  method TryParseJson(aiResponse: string, parseJson: string -> Option<Members>) returns (r: Option<Parsed>)
    ensures r == JsonReply(aiResponse, parseJson)
  {
    r := None;
    match FirstBrace(aiResponse, 0) {
      case None =>
      case Some(startIndex) =>
        var endIndex := FindObjectEnd(aiResponse, startIndex);
        if endIndex > startIndex {
          match parseJson(aiResponse[startIndex..endIndex + 1]) {
            case None =>
            case Some(root) =>
              if Readable(root) {
                var p := ReadJson(root);
                r := Some(p);
              }
          }
        }
    }
  }

  /** ParseAIResponse */
  method ParseAIResponse(aiResponse: string, parseJson: string -> Option<Members>) returns (r: Parsed)
    ensures r == ReplyOf(aiResponse, parseJson)
  {
    var json := TryParseJson(aiResponse, parseJson);
    if json.Some? {
      r := json.value;
    } else {
      r := ParseFallbackPlainText(aiResponse);
    }
  }

  /** An object that parses and is readable is taken as it is, even when every field is
    * missing: "{}" gives empty fields, never the plain-text reading of the reply. */
  lemma EmptyObjectKept(s: string, parseJson: string -> Option<Members>, start: nat)
    requires FirstBrace(s, 0) == Some(start)
    requires ObjectEnd(s, start) > start
    requires parseJson(s[start..ObjectEnd(s, start) + 1]) == Some([])
    ensures ReplyOf(s, parseJson) == Parsed(None, None, [], None, [], [])
  {
    assert JsonReply(s, parseJson) == Some(FromJson([])) by {
      assert Readable([]);
    }
    assert FromJson([]) == Parsed(None, None, [], None, [], []);
  }

  /** A reply whose JSON was taken has option keys that are pairwise different (ordinal). */
  lemma JsonOptionsDistinct(s: string, parseJson: string -> Option<Members>, ms: Members)
    requires Readable(ms)
    ensures FromJson(ms).options.Some? ==> DistinctKeys(FromJson(ms).options.value, Ordinal)
  {
  }

  // ---------------------------------------------------------------------------
  // ParseFallbackPlainText
  // ---------------------------------------------------------------------------

  /** Split on '\r' and '\n' without empty entries, each piece trimmed. */
  function TrimmedLines(text: string): (ls: seq<string>)
    ensures |ls| == |Lines(text)|
    ensures forall i :: 0 <= i < |ls| ==> ls[i] == Trim(Lines(text)[i])
  {
    seq(|Lines(text)|, i requires 0 <= i < |Lines(text)| => Trim(Lines(text)[i]))
  }

  /** The eight characters C(â|a)u h(o|ỏ)i[:\-] ignoring case. */
  predicate QuestionLabelPrefix(l: string) {
    |l| >= 8 && ToLowerChar(l[0]) == 'c' && (ToLowerChar(l[1]) == '\U{E2}' || ToLowerChar(l[1]) == 'a')
    && ToLowerChar(l[2]) == 'u' && l[3] == ' ' && ToLowerChar(l[4]) == 'h'
    && (ToLowerChar(l[5]) == 'o' || ToLowerChar(l[5]) == '\U{1ECF}') && ToLowerChar(l[6]) == 'i'
    && (l[7] == ':' || l[7] == '-')
  }

  /** The eight characters Tr(ả|a) l(ờ|o)i[:\-] ignoring case. */
  predicate AnswerLabelPrefix(l: string) {
    |l| >= 8 && ToLowerChar(l[0]) == 't' && ToLowerChar(l[1]) == 'r'
    && (ToLowerChar(l[2]) == '\U{1EA3}' || ToLowerChar(l[2]) == 'a') && l[3] == ' '
    && ToLowerChar(l[4]) == 'l' && (ToLowerChar(l[5]) == '\U{1EDD}' || ToLowerChar(l[5]) == 'o')
    && ToLowerChar(l[6]) == 'i' && (l[7] == ':' || l[7] == '-')
  }

  /** ^C(â|a)u h(o|ỏ)i[:\-]\s*(.+)$ with group 3 trimmed: (.+) needs one character after the
    * label, and whatever \s* leaves to it, trimming gives the text after the label trimmed. */
  function QuestionLineOf(l: string): Option<string> {
    if QuestionLabelPrefix(l) && |l| > 8 then Some(Trim(l[8..])) else None
  }

  /** The position of the answer letter in ^Tr(ả|a) l(ờ|o)i[:\-]\s*([A-D]): the letter has to
    * follow the white run directly, since a white character given back by \s* is no letter. */
  function AnswerLetterAt(l: string): (r: Option<nat>)
    ensures r.Some? ==> 8 <= r.value < |l| && IsChoiceLetter(l[r.value])
  {
    if !AnswerLabelPrefix(l) then None
    else
      var w := WhiteRunEnd(l, 8);
      if w < |l| && IsChoiceLetter(l[w]) then Some(w) else None
  }

  /** (answer, answerText) of a "Trả lời:" line: the letter upper-cased, and
    * $"{answer}. {group 4 trimmed}".Trim().Trim('.'), group 4 being what follows the letter,
    * an optional '.', and a white run. */
  function AnswerLineOf(l: string): (r: Option<(string, string)>)
    ensures r.Some? <==> AnswerLetterAt(l).Some?
    ensures r.Some? ==> (|r.value.0| == 1 && 'A' <= r.value.0[0] <= 'D'
      && EqualsIgnoreCase(r.value.0, [l[AnswerLetterAt(l).value]]))
    ensures r.Some? ==> r.value.1 != [] && r.value.1[0] == r.value.0[0]
  {
    match AnswerLetterAt(l)
    case None => None
    case Some(w) =>
      var answer := ChoiceKey(l[w]);
      var p := if w + 1 < |l| && l[w + 1] == '.' then w + 2 else w + 1;
      var rest := l[WhiteRunEnd(l, p)..];
      AnswerTextHead(answer, rest);
      Some((answer, TrimChar(Trim(answer + ". " + Trim(rest)), '.')))
  }

  /** question, answer and answerText as the first loop leaves them. */
  datatype Labels = Labels(question: string, answer: string, answerText: string)

  /** The first loop over lines: a "Câu hỏi:" line sets the question (and the loop continues
    * with the next line), otherwise a "Trả lời:" line sets the answer; later lines win. */
  function ScanLabels(ls: seq<string>): Labels
    decreases |ls|
  {
    if ls == [] then Labels([], [], [])
    else
      var prev := ScanLabels(ls[..|ls| - 1]);
      var l := ls[|ls| - 1];
      match QuestionLineOf(l)
      case Some(q) => prev.(question := q)
      case None =>
        match AnswerLineOf(l)
        case Some((a, t)) => prev.(answer := a, answerText := t)
        case None => prev
  }

  /** Where the option letter's white run starts in ^([A-Da-d])[.)]?\s+: after the mark when
    * one follows the letter, else right after the letter (giving the mark back leaves \s+ in
    * front of the mark, which fails). */
  function OptionWhiteStart(l: string): (k: nat)
    requires |l| >= 2
    ensures k == 1 || k == 2
  {
    if l[1] == '.' || l[1] == ')' then 2 else 1
  }

  /** ^([A-Da-d])[.)]?\s+ matches at the start of l. */
  predicate OptionHead(l: string) {
    |l| >= 2 && IsChoiceLetter(l[0]) && OptionWhiteStart(l) < |l| && IsWhite(l[OptionWhiteStart(l)])
  }

  /** (key, value) of ^([A-Da-d])[.)]?\s+(.*)$: the letter upper-cased and the text after the
    * white run, trimmed. */
  function OptionLabel(l: string): (r: Option<(string, string)>)
    ensures r.Some? <==> OptionHead(l)
    ensures r.Some? ==> |r.value.0| == 1 && 'A' <= r.value.0[0] <= 'D'
  {
    if OptionHead(l) then Some((ChoiceKey(l[0]), Trim(l[WhiteRunEnd(l, OptionWhiteStart(l))..])))
    else None
  }

  /** The options the second loop builds: null until the first option line, then a
    * case-insensitive dictionary in which a later line with the same letter overwrites. */
  function OptionsOf(ls: seq<string>, labelOf: string -> Option<(string, string)>): Option<OptionMap>
    decreases |ls|
  {
    if ls == [] then None
    else
      var prev := OptionsOf(ls[..|ls| - 1], labelOf);
      match labelOf(ls[|ls| - 1])
      case None => prev
      case Some((k, v)) => Some(Set(if prev.Some? then prev.value else [], k, v, IgnoreCase))
  }

  predicate HasQuestionMark(l: string) { HasChar(l, '?') }

  /** lines.FirstOrDefault(l => l.Contains("?")) ?? lines.FirstOrDefault() ?? "" */
  function DefaultQuestion(ls: seq<string>): string {
    match FirstWhere(ls, HasQuestionMark, 0)
    case Some(i) => ls[i]
    case None => if ls == [] then [] else ls[0]
  }

  /** The first position of a match of \b([A-D])\b ignoring case: a choice letter with a
    * non-word character (or the end of the text) on either side. */
  predicate LoneLetterAt(s: string, i: nat) {
    i < |s| && IsChoiceLetter(s[i]) && BoundaryBefore(s, i) && BoundaryAfter(s, i + 1)
  }

  function FindLoneLetter(s: string, from: nat): (r: Option<nat>)
    requires from <= |s|
    ensures r.Some? ==> (from <= r.value < |s| && LoneLetterAt(s, r.value)
      && forall k :: from <= k < r.value ==> !LoneLetterAt(s, k))
    ensures r.None? ==> forall k :: from <= k < |s| ==> !LoneLetterAt(s, k)
    decreases |s| - from
  {
    if from == |s| then None
    else if LoneLetterAt(s, from) then Some(from)
    else FindLoneLetter(s, from + 1)
  }

  /** The letter of \b([A-D])\b upper-cased, or "" when there is none. */
  function LoneLetter(s: string): (a: string)
    ensures IsAnswer(a)
  {
    match FindLoneLetter(s, 0)
    case Some(i) => ChoiceKey(s[i])
    case None => []
  }

  /** ^([A-D]) ignoring case, on answerText. */
  function HeadLetter(s: string, otherwise: string): string {
    if |s| > 0 && IsChoiceLetter(s[0]) then ChoiceKey(s[0]) else otherwise
  }

  /** ParseFallbackPlainText(text) */
  function FallbackOf(text: string): Parsed {
    if IsBlank(text) then Parsed(None, None, [], None, [], [])
    else
      var ls := TrimmedLines(text);
      var labels := ScanLabels(ls);
      var question := if IsBlank(labels.question) then DefaultQuestion(ls) else labels.question;
      var options := OptionsOf(ls, OptionLabel);
      var a1 := if IsBlank(labels.answer) && !IsBlank(labels.answerText)
        then HeadLetter(labels.answerText, labels.answer) else labels.answer;
      var a2 := if IsBlank(a1) then (if LoneLetter(text) == [] then a1 else LoneLetter(text)) else a1;
      Parsed(None, None, question, options, a2, labels.answerText)
  }

  /** The first loop of ParseFallbackPlainText: the "Câu hỏi:" and "Trả lời:" lines. */
  method ScanLabelLines(lines: seq<string>) returns (labels: Labels)
    ensures labels == ScanLabels(lines)
  {
    var question: string := [];
    var answer: string := [];
    var answerText: string := [];
    var i := 0;
    while i < |lines|
      invariant 0 <= i <= |lines|
      invariant Labels(question, answer, answerText) == ScanLabels(lines[..i])
    {
      assert lines[..i + 1][..i] == lines[..i];
      var line := lines[i];
      match QuestionLineOf(line) {
        case Some(q) =>
          question := q;
        case None =>
          match AnswerLineOf(line) {
            case Some((a, t)) =>
              answer := a;
              answerText := t;
            case None =>
          }
      }
      i := i + 1;
    }
    assert lines[..i] == lines;
    labels := Labels(question, answer, answerText);
  }

  /** The second loop of ParseFallbackPlainText: the option lines. */
  method CollectOptions(lines: seq<string>) returns (options: Option<OptionMap>)
    ensures options == OptionsOf(lines, OptionLabel)
  {
    options := None;
    var i := 0;
    while i < |lines|
      invariant 0 <= i <= |lines|
      invariant options == OptionsOf(lines[..i], OptionLabel)
    {
      assert lines[..i + 1][..i] == lines[..i];
      match OptionLabel(lines[i]) {
        case Some((key, val)) =>
          var d := if options.Some? then options.value else [];
          options := Some(Set(d, key, val, IgnoreCase));
        case None =>
      }
      i := i + 1;
    }
    assert lines[..i] == lines;
  }

  /** ParseFallbackPlainText */
  method ParseFallbackPlainText(text: string) returns (r: Parsed)
    ensures r == FallbackOf(text)
  {
    if IsBlank(text) {
      return Parsed(None, None, [], None, [], []);
    }
    var lines := TrimmedLines(text);
    var labels := ScanLabelLines(lines);
    var question := labels.question;
    if IsBlank(question) {
      question := DefaultQuestion(lines);
    }
    var options := CollectOptions(lines);
    var answer := labels.answer;
    if IsBlank(answer) && !IsBlank(labels.answerText) {
      answer := HeadLetter(labels.answerText, answer);
    }
    if IsBlank(answer) {
      var shortAns := LoneLetter(text);
      if shortAns != [] {
        answer := shortAns;
      }
    }
    r := Parsed(None, None, question, options, answer, labels.answerText);
  }

  /** Trimming and stripping dots keeps a leading letter in front. */
  lemma {:induction false} TrimCharKeepsHead(s: string, ch: char)
    requires s != [] && s[0] != ch
    ensures TrimChar(s, ch) != [] && TrimChar(s, ch)[0] == s[0]
    decreases |s|
  {
    if |s| > 1 && s[|s| - 1] == ch {
      TrimCharKeepsHead(s[..|s| - 1], ch);
    }
  }

  lemma AnswerTextHead(answer: string, rest: string)
    requires |answer| == 1 && 'A' <= answer[0] <= 'D'
    ensures TrimChar(Trim(answer + ". " + Trim(rest)), '.') != []
    ensures TrimChar(Trim(answer + ". " + Trim(rest)), '.')[0] == answer[0]
  {
    var full := answer + ". " + Trim(rest);
    assert full[0] == answer[0];
    TrimKeepsHead(full);
    TrimCharKeepsHead(Trim(full), '.');
  }

  /** After the first loop the answer is "" or a letter A..D, and it is blank exactly when the
    * answer text is: the two are always set together. */
  lemma {:induction false} ScanLabelsAnswer(ls: seq<string>)
    ensures IsAnswer(ScanLabels(ls).answer)
    ensures ScanLabels(ls).answer == [] <==> ScanLabels(ls).answerText == []
    ensures ScanLabels(ls).answerText != [] ==> ScanLabels(ls).answerText[0] == ScanLabels(ls).answer[0]
    decreases |ls|
  {
    if ls != [] {
      ScanLabelsAnswer(ls[..|ls| - 1]);
    }
  }

  /** The step that infers the answer from the head of the answer text (CapturePipeline.cs,
    * after the option loop) never runs: the answer is blank only when the text is too. */
  lemma FallbackHeadLetterDead(text: string)
    ensures !(IsBlank(ScanLabels(TrimmedLines(text)).answer)
      && !IsBlank(ScanLabels(TrimmedLines(text)).answerText))
  {
    var labels := ScanLabels(TrimmedLines(text));
    ScanLabelsAnswer(TrimmedLines(text));
    if labels.answer != [] {
      assert !IsWhite(labels.answer[0]);
    }
  }

  /** The options any label function builds have that function's keys, pairwise different
    * ignoring case; they are null exactly when no line is labelled. */
  lemma {:induction false} OptionsOfKeys(ls: seq<string>, labelOf: string -> Option<(string, string)>)
    requires forall l :: labelOf(l).Some? ==> |labelOf(l).value.0| == 1 && 'A' <= labelOf(l).value.0[0] <= 'D'
    ensures ChoiceKeys(OptionsOf(ls, labelOf))
    ensures OptionsOf(ls, labelOf).Some? ==> |OptionsOf(ls, labelOf).value| > 0
    ensures OptionsOf(ls, labelOf).None? <==> forall i :: 0 <= i < |ls| ==> labelOf(ls[i]).None?
    decreases |ls|
  {
    if ls != [] {
      var init := ls[..|ls| - 1];
      OptionsOfKeys(init, labelOf);
      var prev := OptionsOf(init, labelOf);
      assert forall i :: 0 <= i < |init| ==> init[i] == ls[i];
      match labelOf(ls[|ls| - 1])
      case None =>
      case Some((k, v)) =>
        var d := if prev.Some? then prev.value else [];
        SetThenLookup(d, k, v, IgnoreCase);
        SetKeepsLetterKeys(d, k, v);
    }
  }

  predicate LetterKeys(d: OptionMap) {
    forall i :: 0 <= i < |d| ==> |d[i].0| == 1 && 'A' <= d[i].0[0] <= 'D'
  }

  /** Setting a letter key keeps every key a letter A..D. */
  lemma SetKeepsLetterKeys(d: OptionMap, k: string, v: string)
    requires LetterKeys(d) && |k| == 1 && 'A' <= k[0] <= 'D'
    ensures LetterKeys(Set(d, k, v, IgnoreCase))
  {
    var r := Set(d, k, v, IgnoreCase);
    match IndexOfKey(d, k, IgnoreCase)
    case Some(j) =>
      assert forall i :: 0 <= i < |r| ==> r[i].0 == d[i].0;
    case None =>
      assert r == d + [(k, v)];
  }

  /** ParseFallbackPlainText gives "" or one letter A..D as the answer, option keys among
    * "A".."D" with no duplicates, and a null options dictionary only when no line is an
    * option line. */
  lemma FallbackShape(text: string)
    ensures IsAnswer(FallbackOf(text).answer)
    ensures ChoiceKeys(FallbackOf(text).options)
    ensures FallbackOf(text).options.Some? ==> |FallbackOf(text).options.value| > 0
    ensures FallbackOf(text).questionNumber.None? && FallbackOf(text).questionId.None?
  {
    if !IsBlank(text) {
      var ls := TrimmedLines(text);
      ScanLabelsAnswer(ls);
      OptionsOfKeys(ls, OptionLabel);
      FallbackHeadLetterDead(text);
    }
  }

  // ---------------------------------------------------------------------------
  // TryRecoverFromOcr
  // ---------------------------------------------------------------------------

  /** (Question, Options, Answer, AnswerText) */
  datatype Recovered = Recovered(question: string, options: Option<OptionMap>, answer: string, answerText: string)

  /** ^([A-D])[.)]?\s+ ignoring case, on the trimmed reply. */
  predicate AnswerHead(t: string) { OptionHead(t) }

  /** The answer letter: \b([A-D])\b anywhere in the reply, else ^([A-D])[.)]?\s+ at the start
    * of the trimmed reply, else "". */
  function RecoveredAnswer(ai: string): (a: string)
    ensures IsAnswer(a)
  {
    if LoneLetter(ai) != [] then LoneLetter(ai)
    else
      var t := Trim(ai);
      if AnswerHead(t) then ChoiceKey(t[0]) else []
  }

  /** ^[A-Da-d][.)]?\s+.+$: as OptionHead, and .+ needs one more character, which \s+ can give
    * back when its white run has at least two characters. */
  predicate IsOptionLine(l: string) {
    OptionHead(l)
    && (WhiteRunEnd(l, OptionWhiteStart(l)) < |l|
      || WhiteRunEnd(l, OptionWhiteStart(l)) - OptionWhiteStart(l) >= 2)
  }

  /** (key, value) of ^([A-Da-d])[.)]?\s+(.+)$, group 2 trimmed. */
  function RecoverLabel(l: string): (r: Option<(string, string)>)
    ensures r.Some? <==> IsOptionLine(l)
    ensures r.Some? ==> |r.value.0| == 1 && 'A' <= r.value.0[0] <= 'D'
  {
    if IsOptionLine(l) then OptionLabel(l) else None
  }

  /** The indices of the lines at or after from that satisfy p, in ascending order. */
  function IndicesWhere(ls: seq<string>, p: string -> bool, from: nat): (r: seq<nat>)
    requires from <= |ls|
    ensures forall k :: 0 <= k < |r| ==> from <= r[k] < |ls| && p(ls[r[k]])
    ensures forall k, m :: 0 <= k < m < |r| ==> r[k] < r[m]
    ensures forall j :: from <= j < |ls| && p(ls[j]) ==> j in r
    ensures r == [] <==> FirstWhere(ls, p, from).None?
    ensures r != [] ==> r[0] == FirstWhere(ls, p, from).value
    decreases |ls| - from
  {
    if from == |ls| then []
    else if p(ls[from]) then [from] + IndicesWhere(ls, p, from + 1)
    else IndicesWhere(ls, p, from + 1)
  }

  /** What the continuation loop appends after an option line, from line j on: " " + each
    * following line up to the next option line. */
  function Continuation(ls: seq<string>, isOption: string -> bool, j: nat): string
    requires j <= |ls|
    decreases |ls| - j
  {
    if j < |ls| && !isOption(ls[j]) then " " + Trim(ls[j]) + Continuation(ls, isOption, j + 1) else []
  }

  /** The options of the lines at the given indices, each value extended by its
    * continuation lines; a later option with the same letter overwrites. */
  function RecoverOptions(ls: seq<string>, idxs: seq<nat>,
    labelOf: string -> Option<(string, string)>, isOption: string -> bool): OptionMap
    requires forall k :: 0 <= k < |idxs| ==> idxs[k] < |ls|
    decreases |idxs|
  {
    if idxs == [] then []
    else
      var prev := RecoverOptions(ls, idxs[..|idxs| - 1], labelOf, isOption);
      var i := idxs[|idxs| - 1];
      match labelOf(ls[i])
      case None => prev
      case Some((k, v)) => Set(prev, k, v + Continuation(ls, isOption, i + 1), IgnoreCase)
  }

  /** The question: the first line before the first option that has a '?', else all of
    * them joined with spaces; "" when the options start at the first line. */
  function RecoveredQuestion(before: seq<string>): string {
    if |before| > 0 then
      match FirstWhere(before, HasQuestionMark, 0)
      case Some(j) => before[j]
      case None => Join(" ", before)
    else []
  }

  const NothingRecovered := Recovered([], None, [], [])

  /** TryRecoverFromOcr(ocrText, aiResponse) */
  function RecoveryOf(ocr: string, ai: string): Recovered {
    if IsBlank(ocr) || IsBlank(ai) then NothingRecovered
    else
      var answer := RecoveredAnswer(ai);
      var ls := TrimmedLines(ocr);
      if |ls| == 0 then NothingRecovered
      else
        var idxs := IndicesWhere(ls, IsOptionLine, 0);
        if |idxs| == 0 then NothingRecovered
        else
          var question := RecoveredQuestion(ls[..idxs[0]]);
          var options := RecoverOptions(ls, idxs, RecoverLabel, IsOptionLine);
          if IsBlank(question) && |options| == 0 then NothingRecovered
          else
            var answerText := if !IsBlank(answer) && Lookup(options, answer, IgnoreCase).Some?
              then answer + ". " + Lookup(options, answer, IgnoreCase).value else [];
            Recovered(question, Some(options), answer, answerText)
  }

  /** The continuation loop: the value of the option at idx with the following non-option
    * lines appended. */
  method AppendContinuation(lines: seq<string>, isOption: string -> bool, idx: nat, first: string)
    returns (val: string)
    requires idx < |lines|
    ensures val == first + Continuation(lines, isOption, idx + 1)
  {
    val := first;
    var extraIdx := idx + 1;
    while extraIdx < |lines| && !isOption(lines[extraIdx])
      invariant idx + 1 <= extraIdx <= |lines|
      invariant val + Continuation(lines, isOption, extraIdx) == first + Continuation(lines, isOption, idx + 1)
      decreases |lines| - extraIdx
    {
      var piece := " " + Trim(lines[extraIdx]);
      assert Continuation(lines, isOption, extraIdx) == piece + Continuation(lines, isOption, extraIdx + 1);
      assert val + piece + Continuation(lines, isOption, extraIdx + 1)
        == val + (piece + Continuation(lines, isOption, extraIdx + 1));
      val := val + piece;
      extraIdx := extraIdx + 1;
    }
  }

  /** The loop over the option lines of TryRecoverFromOcr. */
  method BuildOptions(lines: seq<string>, optionIndices: seq<nat>,
    labelOf: string -> Option<(string, string)>, isOption: string -> bool) returns (options: OptionMap)
    requires forall k :: 0 <= k < |optionIndices| ==> optionIndices[k] < |lines|
    ensures options == RecoverOptions(lines, optionIndices, labelOf, isOption)
  {
    options := [];
    var t := 0;
    while t < |optionIndices|
      invariant 0 <= t <= |optionIndices|
      invariant options == RecoverOptions(lines, optionIndices[..t], labelOf, isOption)
    {
      assert optionIndices[..t + 1][..t] == optionIndices[..t];
      var idx := optionIndices[t];
      match labelOf(lines[idx]) {
        case Some((key, first)) =>
          var val := AppendContinuation(lines, isOption, idx, first);
          options := Set(options, key, val, IgnoreCase);
        case None =>
      }
      t := t + 1;
    }
    assert optionIndices[..t] == optionIndices;
  }

  /** TryRecoverFromOcr */
  method TryRecoverFromOcr(ocrText: string, aiResponse: string) returns (r: Recovered)
    ensures r == RecoveryOf(ocrText, aiResponse)
  {
    if IsBlank(ocrText) || IsBlank(aiResponse) {
      return NothingRecovered;
    }
    var answer := RecoveredAnswer(aiResponse);
    var lines := TrimmedLines(ocrText);
    if |lines| == 0 {
      return NothingRecovered;
    }
    var optionIndices := IndicesWhere(lines, IsOptionLine, 0);
    if |optionIndices| == 0 {
      return NothingRecovered;
    }
    var question := RecoveredQuestion(lines[..optionIndices[0]]);
    var options := BuildOptions(lines, optionIndices, RecoverLabel, IsOptionLine);
    if IsBlank(question) && |options| == 0 {
      return NothingRecovered;
    }
    var answerText: string := [];
    var optText := Lookup(options, answer, IgnoreCase);
    if !IsBlank(answer) && optText.Some? {
      answerText := answer + ". " + optText.value;
    }
    r := Recovered(question, Some(options), answer, answerText);
  }

  /** A reply whose trimmed text starts with a letter, an optional '.' or ')' and white
    * space has a lone letter where the trimmed text starts. */
  lemma HeadIsLone(ai: string)
    ensures AnswerHead(Trim(ai)) ==> LoneLetterAt(ai, TrimOffset(ai))
  {
    var t := Trim(ai);
    var o := TrimOffset(ai);
    TrimSpec(ai);
    if AnswerHead(t) {
      assert ai[o] == t[0] && ai[o + 1] == t[1];
      assert BoundaryBefore(ai, o) by {
        if o > 0 { assert IsWhite(ai[o - 1]); }
      }
    }
  }

  /** The second answer pattern of TryRecoverFromOcr never supplies the answer: whenever
    * it would match, \b([A-D])\b has matched already, so the answer is always the first
    * lone letter of the reply (or ""). */
  lemma RecoveredAnswerLone(ai: string)
    ensures RecoveredAnswer(ai) == LoneLetter(ai)
  {
    HeadIsLone(ai);
  }

  /** Options built from labelled lines have the label's keys, pairwise different ignoring
    * case, and at least one entry. */
  lemma {:induction false} RecoverOptionsKeys(ls: seq<string>, idxs: seq<nat>,
    labelOf: string -> Option<(string, string)>, isOption: string -> bool)
    requires forall l :: labelOf(l).Some? ==> |labelOf(l).value.0| == 1 && 'A' <= labelOf(l).value.0[0] <= 'D'
    requires forall k :: 0 <= k < |idxs| ==> idxs[k] < |ls| && labelOf(ls[idxs[k]]).Some?
    ensures DistinctKeys(RecoverOptions(ls, idxs, labelOf, isOption), IgnoreCase)
    ensures LetterKeys(RecoverOptions(ls, idxs, labelOf, isOption))
    ensures idxs != [] ==> |RecoverOptions(ls, idxs, labelOf, isOption)| > 0
    decreases |idxs|
  {
    if idxs != [] {
      var init := idxs[..|idxs| - 1];
      RecoverOptionsKeys(ls, init, labelOf, isOption);
      var prev := RecoverOptions(ls, init, labelOf, isOption);
      var i := idxs[|idxs| - 1];
      var lab := labelOf(ls[i]).value;
      var v := lab.1 + Continuation(ls, isOption, i + 1);
      assert RecoverOptions(ls, idxs, labelOf, isOption) == Set(prev, lab.0, v, IgnoreCase);
      SetThenLookup(prev, lab.0, v, IgnoreCase);
      SetKeepsLetterKeys(prev, lab.0, v);
    }
  }

  /** Whenever TryRecoverFromOcr recovers anything, the options are non-empty with keys
    * among "A".."D" and no duplicates; the early return for a blank question with no options
    * never happens. */
  lemma RecoveredOptionsShape(ocr: string, ai: string)
    ensures ChoiceKeys(RecoveryOf(ocr, ai).options)
    ensures RecoveryOf(ocr, ai).options.Some? ==> |RecoveryOf(ocr, ai).options.value| > 0
    ensures RecoveryOf(ocr, ai).options.None? <==> RecoveryOf(ocr, ai) == NothingRecovered
  {
    var r := RecoveryOf(ocr, ai);
    var ls := TrimmedLines(ocr);
    var idxs := IndicesWhere(ls, IsOptionLine, 0);
    if IsBlank(ocr) || IsBlank(ai) || |ls| == 0 || |idxs| == 0 {
      assert r == NothingRecovered;
    } else {
      var options := RecoverOptions(ls, idxs, RecoverLabel, IsOptionLine);
      RecoverOptionsKeys(ls, idxs, RecoverLabel, IsOptionLine);
      assert ChoiceKeys(Some(options));
      assert r.options == Some(options) && r != NothingRecovered;
    }
  }
}
