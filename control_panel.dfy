/** The results editor of the control panel: the list of saved answers it loads from the
  * output folder, the text it shows for one answer and the parse that turns the edited text
  * back into a record, and the small formatting helpers of its list and settings tab. */
module ControlPanel {
  import opened Wrappers
  import opened Text
  import opened OptionMaps
  import opened Answers
  import opened Paths
  import opened Settings

  /** Environment.NewLine on Windows. */
  const NewLine := "\r\n"

  // ---------------------------------------------------------------------------
  // List columns and the settings tab
  // ---------------------------------------------------------------------------

  /** TrimForView(text, max) */
  function TrimForView(text: string, max: nat): string {
    if IsBlank(text) then []
    else if |text| <= max then text
    else text[..max] + "..."
  }

  /** A shown text is empty exactly for a blank text, is never more than three characters
    * over the limit, and is the text itself or its first max characters followed by "...". */
  lemma TrimForViewShape(text: string, max: nat)
    ensures var r := TrimForView(text, max);
      && (r == [] <==> IsBlank(text))
      && |r| <= max + 3
      && (!IsBlank(text) ==> r == text || (|text| > max && r == text[..max] + "..."))
      && (!IsBlank(text) && |text| <= max ==> r == text)
  {
    if !IsBlank(text) {
      assert |text| > 0;
    }
  }

  /** The parts BuildMeta joins: the trimmed number and then the trimmed id, each when it is
    * not blank. */
  function MetaParts(number: string, id: string): (ps: seq<string>)
    ensures forall k :: 0 <= k < |ps| ==> !IsBlank(ps[k]) && Trim(ps[k]) == ps[k]
  {
    TrimmedIfPresent(Some(number)) + TrimmedIfPresent(Some(id))
  }

  /** BuildMeta(r) */
  function BuildMeta(r: AnswerResult): string {
    Join(" ", MetaParts(r.QuestionNumber, r.QuestionId))
  }

  /** The meta column is empty exactly when both values are blank, is the one trimmed value
    * when only one is present, and the trimmed number, a space and the trimmed id otherwise. */
  lemma BuildMetaShape(r: AnswerResult)
    ensures (BuildMeta(r) == []) <==> (IsBlank(r.QuestionNumber) && IsBlank(r.QuestionId))
    ensures !IsBlank(r.QuestionNumber) && IsBlank(r.QuestionId) ==> BuildMeta(r) == Trim(r.QuestionNumber)
    ensures IsBlank(r.QuestionNumber) && !IsBlank(r.QuestionId) ==> BuildMeta(r) == Trim(r.QuestionId)
    ensures !IsBlank(r.QuestionNumber) && !IsBlank(r.QuestionId) ==>
      BuildMeta(r) == Trim(r.QuestionNumber) + " " + Trim(r.QuestionId)
  {
    var ps := MetaParts(r.QuestionNumber, r.QuestionId);
    if |ps| == 1 {
      assert ps[0] != [] by { TrimBlank(ps[0]); }
    } else if |ps| == 2 {
      assert ps == [Trim(r.QuestionNumber), Trim(r.QuestionId)];
      assert ps[1..] == [ps[1]];
      assert Join(" ", ps) == ps[0] + " " + Join(" ", [ps[1]]);
    }
  }

  /** The keys AddGemKey finds in the key box: the trimmed non-blank lines (trimming before
    * or after dropping blank lines gives the same list). */
  function KeyLines(gemKeys: string): seq<string> {
    TrimmedNonBlank(Lines(gemKeys))
  }

  /** existing.Contains(key, StringComparer.OrdinalIgnoreCase) */
  predicate Listed(keys: seq<string>, key: string) {
    exists k :: 0 <= k < |keys| && EqualsIgnoreCase(keys[k], key)
  }

  /** AddGemKey(gemKeys, keyInput): the new texts of the key box and of the input box. A blank
    * key changes nothing; otherwise the input is cleared, and the trimmed key is appended to
    * the key lines unless one of them equals it ignoring case. */
  function AddGemKey(gemKeys: string, keyInput: string): (string, string) {
    var key := Trim(keyInput);
    if IsBlank(key) then (gemKeys, keyInput)
    else
      var existing := KeyLines(gemKeys);
      if Listed(existing, key) then (gemKeys, [])
      else (Join(NewLine, existing + [key]), [])
  }

  /** A list of trimmed, non-blank keys is its own list of key lines. */
  lemma {:induction false} TrimmedNonBlankFixed(ks: seq<string>)
    requires forall k :: 0 <= k < |ks| ==> !IsBlank(ks[k]) && Trim(ks[k]) == ks[k]
    ensures TrimmedNonBlank(ks) == ks
  {
    if ks != [] {
      TrimmedNonBlankFixed(ks[..|ks| - 1]);
      assert ks == ks[..|ks| - 1] + [ks[|ks| - 1]];
    }
  }

  /** The pieces of a line split hold no line break, and neither does their trim. */
  lemma TrimmedLinesSingle(text: string)
    ensures forall k :: 0 <= k < |KeyLines(text)| ==> KeyLines(text)[k] != [] && NoLineBreak(KeyLines(text)[k])
  {
    var ls := Lines(text);
    SplitPiecesNoSep(text, IsLineBreak);
    RemoveEmptyKeeps(RawLines(text), IsLineBreak);
    TrimmedNonBlankKeeps(ls);
  }

  /** RemoveEmpty keeps only pieces of the input. */
  lemma {:induction false} RemoveEmptyKeeps(ps: seq<string>, isSep: char -> bool)
    requires forall k, i :: 0 <= k < |ps| && 0 <= i < |ps[k]| ==> !isSep(ps[k][i])
    ensures forall k, i :: 0 <= k < |RemoveEmpty(ps)| && 0 <= i < |RemoveEmpty(ps)[k]| ==> !isSep(RemoveEmpty(ps)[k][i])
  {
    if ps != [] {
      RemoveEmptyKeeps(ps[1..], isSep);
      assert forall k :: 1 <= k < |ps| ==> ps[1..][k - 1] == ps[k];
    }
  }

  /** Trimming non-blank single-line texts keeps them single-line. */
  lemma {:induction false} TrimmedNonBlankKeeps(ls: seq<string>)
    requires forall k :: 0 <= k < |ls| ==> NoLineBreak(ls[k])
    ensures forall k :: 0 <= k < |TrimmedNonBlank(ls)| ==> TrimmedNonBlank(ls)[k] != [] && NoLineBreak(TrimmedNonBlank(ls)[k])
  {
    if ls != [] {
      var p := ls[..|ls| - 1];
      var last := ls[|ls| - 1];
      TrimmedNonBlankKeeps(p);
      if !IsBlank(last) {
        TrimSpec(last);
        TrimBlank(last);
        var t := Trim(last);
        var o := TrimOffset(last);
        assert forall i :: 0 <= i < |t| ==> t[i] == last[o + i];
      }
    }
  }

  /** A blank key or one already listed (ignoring case) leaves the key box as it is; any other
    * key ends up the last of the key lines, after the ones that were there. */
  lemma AddGemKeyShape(gemKeys: string, keyInput: string)
    requires NoLineBreak(keyInput)
    ensures var (keys, input) := AddGemKey(gemKeys, keyInput);
      && (IsBlank(keyInput) ==> keys == gemKeys && input == keyInput)
      && (!IsBlank(keyInput) ==> input == [])
      && (Listed(KeyLines(gemKeys), Trim(keyInput)) ==> keys == gemKeys)
      && (!IsBlank(keyInput) && !Listed(KeyLines(gemKeys), Trim(keyInput)) ==>
            KeyLines(keys) == KeyLines(gemKeys) + [Trim(keyInput)])
  {
    TrimBlank(keyInput);
    TrimBlank(Trim(keyInput));
    TrimIdempotent(keyInput);
    var key := Trim(keyInput);
    if !IsBlank(key) {
      assert NoLineBreak(key) by {
        TrimSpec(keyInput);
        var o := TrimOffset(keyInput);
        assert forall i :: 0 <= i < |key| ==> key[i] == keyInput[o + i];
      }
      AppendedKeyLines(gemKeys, key);
    }
  }

  /** A trimmed, non-blank, single-line key joined after the key lines is read back as the
    * last key line. */
  lemma AppendedKeyLines(gemKeys: string, key: string)
    requires !IsBlank(key) && Trim(key) == key && NoLineBreak(key)
    ensures KeyLines(Join(NewLine, KeyLines(gemKeys) + [key])) == KeyLines(gemKeys) + [key]
  {
    var existing := KeyLines(gemKeys);
    var list := existing + [key];
    TrimmedLinesSingle(gemKeys);
    assert key != [] by { TrimBlank(key); }
    assert Lines(Join(NewLine, list)) == list by {
      assert forall k :: 0 <= k < |list| ==> list[k] != [] && NoLineBreak(list[k]);
      assert IsLineBreak(NewLine[0]) && IsLineBreak(NewLine[1]);
      LinesOfJoin(NewLine, list);
    }
    assert TrimmedNonBlank(list) == list by {
      assert forall k :: 0 <= k < |list| ==> !IsBlank(list[k]) && Trim(list[k]) == list[k];
      TrimmedNonBlankFixed(list);
    }
  }

  // ---------------------------------------------------------------------------
  // The editor text of an answer and its parse
  // ---------------------------------------------------------------------------

  /** "{Key}. {Value}" */
  function OptionLine(e: Entry): string { e.0 + ". " + e.1 }

  /** FormatOptions(options): one line per option, ordered by key ignoring case. */
  function FormatOptions(options: Option<OptionMap>): string {
    if !HasOptions(options) then []
    else
      Join(NewLine, OptionLines(SortBy(options.value, EntryKey)))
  }

  function OptionLines(d: OptionMap): (ls: seq<string>)
    ensures |ls| == |d| && forall i :: 0 <= i < |d| ==> ls[i] == OptionLine(d[i])
  {
    seq(|d|, i requires 0 <= i < |d| => OptionLine(d[i]))
  }

  /** The question box of ShowResultDetails: the question, and the options after a blank line
    * when there are any. */
  function EditorText(r: AnswerResult): string {
    var opts := FormatOptions(r.Options);
    if IsBlank(opts) then r.Question else r.Question + NewLine + NewLine + opts
  }

  /** A trimmed line that starts the options: an upper-case letter and a '.'. */
  predicate StartsOptions(t: string) { |t| >= 2 && IsLetter(t[0]) && t[1] == '.' && IsUpper(t[0]) }

  /** The trimmed lines. */
  function TrimAll(ls: seq<string>): (ts: seq<string>)
    ensures |ts| == |ls| && forall k :: 0 <= k < |ls| ==> ts[k] == Trim(ls[k])
  {
    seq(|ls|, k requires 0 <= k < |ls| => Trim(ls[k]))
  }

  /** The position of the first line that starts the options, |ts| when there is none. */
  function FirstOptionLine(ts: seq<string>): (f: nat)
    ensures f <= |ts| && (f < |ts| ==> StartsOptions(ts[f]))
    ensures forall k :: 0 <= k < f ==> !StartsOptions(ts[k])
  {
    if ts == [] then 0
    else if StartsOptions(ts[0]) then 0
    else 1 + FirstOptionLine(ts[1..])
  }

  /** The option an option line gives: optLine.Split('.', 2) has a one-letter head. The key
    * is the letter in upper case and the value the trimmed rest. */
  function OptionOfLine(t: string): Option<Entry> {
    if |t| >= 2 && t[1] == '.' && IsLetter(t[0]) then Some(([ToUpperChar(t[0])], Trim(t[2..]))) else None
  }

  /** The dictionary the option lines fill: options[key] = value for each line that gives an
    * option, a later line overwriting an earlier one with the same key. */
  function OptionsOf(ls: seq<string>): OptionMap {
    if ls == [] then []
    else
      var d := OptionsOf(ls[..|ls| - 1]);
      match OptionOfLine(ls[|ls| - 1])
      case Some(e) => OptionMaps.Set(d, e.0, e.1, Ordinal)
      case None => d
  }

  /** The value the last line with this key gives, the reference reading of "later lines
    * overwrite earlier ones". */
  function LastOption(ls: seq<string>, key: string): Option<string> {
    if ls == [] then None
    else match OptionOfLine(ls[|ls| - 1])
      case Some(e) => if e.0 == key then Some(e.1) else LastOption(ls[..|ls| - 1], key)
      case None => LastOption(ls[..|ls| - 1], key)
  }

  /** The options the lines fill have distinct keys, each a single upper-case letter, and
    * every key reads the value of the last line that gives it. */
  lemma {:induction false} OptionsOfLookup(ls: seq<string>, key: string)
    ensures DistinctKeys(OptionsOf(ls), Ordinal)
    ensures forall i :: 0 <= i < |OptionsOf(ls)| ==>
      |OptionsOf(ls)[i].0| == 1 && IsUpper(OptionsOf(ls)[i].0[0])
    ensures Lookup(OptionsOf(ls), key, Ordinal) == LastOption(ls, key)
  {
    if ls != [] {
      var p := ls[..|ls| - 1];
      OptionsOfLookup(p, key);
      var d := OptionsOf(p);
      match OptionOfLine(ls[|ls| - 1])
      case Some(e) =>
        SetThenLookup(d, e.0, e.1, Ordinal);
        if e.0 != key {
          SetOtherKey(d, e.0, e.1, key, Ordinal);
        }
        CaseRoundTrip(ls[|ls| - 1][0]);
      case None =>
    }
  }

  /** A line that gives an option makes the options non-empty. */
  lemma {:induction false} OptionsOfNonEmpty(ls: seq<string>, k: nat)
    requires k < |ls| && OptionOfLine(ls[k]).Some?
    ensures |OptionsOf(ls)| > 0
  {
    var p := ls[..|ls| - 1];
    if OptionOfLine(ls[|ls| - 1]).None? {
      assert p[k] == ls[k];
      OptionsOfNonEmpty(p, k);
    }
  }

  /** The question and options SaveCurrentResult reads from the question box. */
  datatype Edited = Edited(question: string, options: Option<OptionMap>)

  /** SaveCurrentResult's parse of the question box: the trimmed lines before the first line
    * that starts the options make the question; that line and every later one are option
    * lines. */
  function ParseEditor(questionBox: string): Edited {
    var ts := TrimAll(Lines(Trim(questionBox)));
    var f := FirstOptionLine(ts);
    Edited(Trim(Join(NewLine, ts[..f])), if f == |ts| then None else Some(OptionsOf(ts[f..])))
  }

  /** The parse reads Options as null exactly when no trimmed line starts the options; the
    * options it reads otherwise are non-empty, have distinct single upper-case letters as
    * keys, and every key holds the value of the last option line that gives it. The question
    * comes from the lines before the first option line, none of which starts the options. */
  lemma ParseEditorShape(questionBox: string, key: string)
    ensures var p := ParseEditor(questionBox);
      var ts := TrimAll(Lines(Trim(questionBox)));
      var f := FirstOptionLine(ts);
      && (p.options.None? <==> forall k :: 0 <= k < |ts| ==> !StartsOptions(ts[k]))
      && (forall k :: 0 <= k < f ==> !StartsOptions(ts[k]))
      && p.question == Trim(Join(NewLine, ts[..f]))
      && (p.options.Some? ==>
        && |p.options.value| > 0
        && DistinctKeys(p.options.value, Ordinal)
        && (forall i :: 0 <= i < |p.options.value| ==>
          |p.options.value[i].0| == 1 && IsUpper(p.options.value[i].0[0]))
        && Lookup(p.options.value, key, Ordinal) == LastOption(ts[f..], key))
  {
    var ts := TrimAll(Lines(Trim(questionBox)));
    var f := FirstOptionLine(ts);
    if f < |ts| {
      assert ts[f..][0] == ts[f];
      OptionsOfNonEmpty(ts[f..], 0);
      OptionsOfLookup(ts[f..], key);
    }
  }

  /** The split of the trimmed lines into question lines and option lines, as the loop with
    * the foundOptions flag makes it. */
  method SplitEditorLines(lines: seq<string>) returns (questionLines: seq<string>, optionLines: seq<string>)
    ensures var ts := TrimAll(lines);
      questionLines == ts[..FirstOptionLine(ts)] && optionLines == ts[FirstOptionLine(ts)..]
  {
    ghost var ts := TrimAll(lines);
    ghost var f: nat := 0;
    questionLines, optionLines := [], [];
    var foundOptions := false;
    for i := 0 to |lines|
      invariant f == FirstOptionLine(ts[..i]) && f <= i
      invariant foundOptions <==> f < i
      invariant questionLines == ts[..f] && optionLines == ts[f..i]
    {
      var trimmed := Trim(lines[i]);
      assert trimmed == ts[i];
      SplitStep(ts, i, f);
      if StartsOptions(trimmed) {
        if !foundOptions { f := i; }
        foundOptions := true;
        optionLines := optionLines + [trimmed];
      } else if !foundOptions {
        questionLines := questionLines + [trimmed];
        f := i + 1;
      } else {
        optionLines := optionLines + [trimmed];
      }
    }
    FirstOptionPrefix(ts);
  }

  /** One more line of the split: it joins the question lines while no line has started the
    * options, and the option lines from the first that does. */
  lemma SplitStep(ts: seq<string>, i: nat, f: nat)
    requires i < |ts| && f <= i && f == FirstOptionLine(ts[..i])
    ensures var g := if f < i then f else if StartsOptions(ts[i]) then i else i + 1;
      && g == FirstOptionLine(ts[..i + 1])
      && (g == i + 1 ==> ts[..g] == ts[..f] + [ts[i]])
      && (g <= i ==> ts[g..i + 1] == (if g == i then [] else ts[g..i]) + [ts[i]])
  {
    FirstOptionSnoc(ts, i);
  }

  /** The first option line of a longer prefix. */
  lemma FirstOptionSnoc(ts: seq<string>, i: nat)
    requires i < |ts|
    ensures FirstOptionLine(ts[..i + 1]) ==
      if FirstOptionLine(ts[..i]) < i then FirstOptionLine(ts[..i])
      else if StartsOptions(ts[i]) then i else i + 1
  {
    assert ts[..i + 1] == ts[..i] + [ts[i]];
    FirstOptionAppend(ts[..i], ts[i]);
  }

  /** One more line moves the first option line only when there was none before. */
  lemma {:induction false} FirstOptionAppend(a: seq<string>, t: string)
    ensures FirstOptionLine(a + [t]) ==
      if FirstOptionLine(a) < |a| then FirstOptionLine(a)
      else if StartsOptions(t) then |a| else |a| + 1
  {
    if a != [] {
      assert (a + [t])[1..] == a[1..] + [t];
      FirstOptionAppend(a[1..], t);
    }
  }

  lemma FirstOptionPrefix(ts: seq<string>)
    ensures ts[..|ts|] == ts
  {
  }

  /** The options loop: options[key] = value for every option line whose part before the
    * first '.' is one letter. */
  method BuildEditorOptions(optionLines: seq<string>) returns (options: OptionMap)
    ensures options == OptionsOf(optionLines)
  {
    options := [];
    for i := 0 to |optionLines|
      invariant options == OptionsOf(optionLines[..i])
    {
      assert optionLines[..i + 1][..i] == optionLines[..i];
      var optLine := optionLines[i];
      if |optLine| >= 2 && optLine[1] == '.' && IsLetter(optLine[0]) {
        var key := [ToUpperChar(optLine[0])];
        var value := Trim(optLine[2..]);
        options := OptionMaps.Set(options, key, value, Ordinal);
      }
    }
    assert optionLines[..|optionLines|] == optionLines;
  }

  /** The question box as SaveCurrentResult reads it. */
  method ReadEditor(questionBox: string) returns (edited: Edited)
    ensures edited == ParseEditor(questionBox)
  {
    var questionText := Trim(questionBox);
    var questionLines, optionLines := SplitEditorLines(Lines(questionText));
    var question := Trim(Join(NewLine, questionLines));
    if |optionLines| > 0 {
      var options := BuildEditorOptions(optionLines);
      edited := Edited(question, Some(options));
    } else {
      edited := Edited(question, None);
    }
  }

  /** The Answer SaveCurrentResult keeps for a trimmed answer box: the letter of a match of
    * ^([A-Z])[.\s], else the upper-cased box when it is one letter, else the previous
    * Answer, which a blank box also keeps. */
  function AnswerAfterEdit(previous: string, answerText: string): string {
    if IsBlank(answerText) then previous
    else if |answerText| >= 2 && IsAsciiUpper(answerText[0])
      && (answerText[1] == '.' || IsWhite(answerText[1])) then [answerText[0]]
    else if |answerText| == 1 && IsLetter(answerText[0]) then Upper(answerText)
    else previous
  }

  /** The Answer either stays or becomes the upper-case form of the box's first letter; it
    * becomes the letter for "X." / "X ..." with X in A..Z and for a single letter, and it
    * stays for every other box. */
  lemma AnswerAfterEditShape(previous: string, answerText: string)
    ensures var r := AnswerAfterEdit(previous, answerText);
      r == previous || (answerText != [] && IsLetter(answerText[0]) && r == [ToUpperChar(answerText[0])]
        && IsUpper(r[0]))
    ensures var r := AnswerAfterEdit(previous, answerText);
      (|answerText| >= 2 && IsAsciiUpper(answerText[0]) && (answerText[1] == '.' || IsWhite(answerText[1])))
        ==> r == [answerText[0]]
    ensures var r := AnswerAfterEdit(previous, answerText);
      |answerText| == 1 && IsLetter(answerText[0]) ==> r == [ToUpperChar(answerText[0])]
    ensures var r := AnswerAfterEdit(previous, answerText);
      (answerText == [] || !IsLetter(answerText[0])) ==> r == previous
  {
    if answerText != [] && IsAsciiUpper(answerText[0]) {
      assert !IsWhite(answerText[0]);
    }
  }

  /** The record SaveCurrentResult makes from the two boxes. */
  function EditResult(r: AnswerResult, questionBox: string, answerBox: string): AnswerResult {
    var edited := ParseEditor(questionBox);
    var answerText := Trim(answerBox);
    r.(Question := edited.question, Options := edited.options, AnswerText := answerText,
       Answer := AnswerAfterEdit(r.Answer, answerText))
  }

  /** The answer box of ShowResultDetails: AnswerText unless it is blank, then Answer. */
  function AnswerBoxText(r: AnswerResult): string {
    if IsBlank(r.AnswerText) then r.Answer else r.AnswerText
  }

  // ---------------------------------------------------------------------------
  // Showing a record and saving it unedited
  // ---------------------------------------------------------------------------

  /** An option the editor can show and read back: a key that is one upper-case letter and a
    * one-line value, possibly empty, without white space at its ends. */
  predicate EditorOption(e: Entry) {
    |e.0| == 1 && IsUpper(e.0[0]) && NoLineBreak(e.1) && Trim(e.1) == e.1
  }

  /** A shown option line: one line that starts with a non-white character and ends with one,
    * or with the single space before an empty value. */
  predicate ShownOptionLine(l: string) {
    && |l| >= 2 && NoLineBreak(l) && !IsWhite(l[0])
    && (!IsWhite(l[|l| - 1]) || (l[|l| - 1] == ' ' && !IsWhite(l[|l| - 2])))
  }

  /** A shown option line trims to itself, or to itself without its last space. */
  lemma ShownLineTrim(l: string)
    requires ShownOptionLine(l)
    ensures var t := Trim(l);
      && t != [] && NoLineBreak(t) && Trim(t) == t && !IsWhite(t[|t| - 1])
      && (if IsWhite(l[|l| - 1]) then l == t + " " else l == t)
  {
    var n := |l|;
    if IsWhite(l[n - 1]) {
      var t := l[..n - 1];
      assert l == t + " ";
      TrimDropsSpace(t);
      TrimFixed(t);
      assert forall i :: 0 <= i < |t| ==> t[i] == l[i];
    } else {
      TrimFixed(l);
    }
  }

  /** A question line the editor reads back as question text. */
  predicate EditorQuestionLine(l: string) {
    l != [] && NoLineBreak(l) && Trim(l) == l && !StartsOptions(l)
  }

  lemma TrimmedEnds(s: string)
    requires s != [] && Trim(s) == s
    ensures !IsWhite(s[0]) && !IsWhite(s[|s| - 1])
  {
    TrimSpec(s);
  }

  /** The line shown for a well-formed option is a shown option line; trimmed, as the parse
    * trims every line, it starts the options and parses back to the option. */
  lemma OptionLineParsed(e: Entry)
    requires EditorOption(e)
    ensures var l := OptionLine(e);
      var t := Trim(l);
      && ShownOptionLine(l) && (e.1 != [] <==> l == t)
      && t != [] && NoLineBreak(t) && Trim(t) == t
      && StartsOptions(t) && OptionOfLine(t) == Some(e)
  {
    var l := OptionLine(e);
    var k := e.0[0];
    UpperIsFixed(k);
    assert l == e.0 + ". " + e.1;
    assert l[2..] == [' '] + e.1;
    TrimAfterWhite(' ', e.1);
    assert NoLineBreak(l) by {
      forall i | 0 <= i < |l| ensures !IsLineBreak(l[i]) {
        if i >= 3 { assert l[i] == e.1[i - 3]; }
      }
    }
    assert e.0 == [k] && IsLetter(k);
    if e.1 == [] {
      assert l == [k, '.'] + " ";
      TrimDropsSpace([k, '.']);
      assert Trim(l) == [k, '.'];
      TrimFixed([k, '.']);
      assert Trim([k, '.'][2..]) == [];
      assert |Trim(l)| != |l|;
    } else {
      TrimmedEnds(e.1);
      assert l[|l| - 1] == e.1[|e.1| - 1];
      TrimFixed(l);
    }
  }

  /** A text with no white space at its ends, followed by a space, trims back to itself. */
  lemma TrimDropsSpace(s: string)
    requires s != [] && !IsWhite(s[0]) && !IsWhite(s[|s| - 1])
    ensures Trim(s + " ") == s
  {
    var x := s + " ";
    var r := Trim(x);
    TrimSpec(x);
    var off := TrimOffset(x);
    assert !IsWhite(x[0]) && !IsWhite(x[|s| - 1]) && IsWhite(x[|s|]);
    assert off == 0 && |s| <= |r| <= |x|;
    assert |r| == |s| by {
      assert r == [] || !IsWhite(x[|r| - 1]);
    }
    assert r == x[..|s|] == s;
  }

  /** A join of non-empty parts starts with the first part's first character and ends with
    * the last part's last character. */
  lemma {:induction false} JoinEnds(sep: string, parts: seq<string>)
    requires parts != [] && forall k :: 0 <= k < |parts| ==> parts[k] != []
    ensures var j := Join(sep, parts);
      && j != [] && j[0] == parts[0][0]
      && j[|j| - 1] == parts[|parts| - 1][|parts[|parts| - 1]| - 1]
  {
    if |parts| > 1 {
      JoinEnds(sep, parts[1..]);
    }
  }

  lemma TrimAllFixed(ls: seq<string>)
    requires forall k :: 0 <= k < |ls| ==> Trim(ls[k]) == ls[k]
    ensures TrimAll(ls) == ls
  {
  }

  /** The options start right after question lines that do not start them. */
  lemma {:induction false} FirstOptionAfter(a: seq<string>, b: seq<string>)
    requires forall k :: 0 <= k < |a| ==> !StartsOptions(a[k])
    requires b == [] || StartsOptions(b[0])
    ensures FirstOptionLine(a + b) == |a|
  {
    if a == [] {
      assert a + b == b;
    } else {
      assert (a + b)[1..] == a[1..] + b;
      FirstOptionAfter(a[1..], b);
    }
  }

  /** Option lines that each give one option, with distinct keys, fill the dictionary with
    * exactly those options in their order. */
  lemma {:induction false} OptionsOfDistinct(ls: seq<string>, es: OptionMap)
    requires |ls| == |es| && forall k :: 0 <= k < |ls| ==> OptionOfLine(ls[k]) == Some(es[k])
    requires DistinctKeys(es, Ordinal)
    ensures OptionsOf(ls) == es
    decreases |ls|
  {
    if ls != [] {
      var n := |ls|;
      DistinctPrefix(es);
      ParsedPrefix(ls, es);
      OptionsOfDistinct(ls[..n - 1], es[..n - 1]);
      OptionsOfNew(ls[..n - 1], ls[n - 1], es[..n - 1], es[n - 1]);
      assert ls == ls[..n - 1] + [ls[n - 1]] && es == es[..n - 1] + [es[n - 1]];
    }
  }

  lemma ParsedPrefix(ls: seq<string>, es: OptionMap)
    requires ls != [] && |ls| == |es| && forall k :: 0 <= k < |ls| ==> OptionOfLine(ls[k]) == Some(es[k])
    ensures var p, q := ls[..|ls| - 1], es[..|es| - 1];
      |p| == |q| && forall k :: 0 <= k < |p| ==> OptionOfLine(p[k]) == Some(q[k])
    ensures OptionOfLine(ls[|ls| - 1]) == Some(es[|es| - 1])
  {
  }

  /** A line with a new key appends its option. */
  lemma OptionsOfNew(init: seq<string>, line: string, d: OptionMap, e: Entry)
    requires OptionsOf(init) == d && OptionOfLine(line) == Some(e)
    requires IndexOfKey(d, e.0, Ordinal).None?
    ensures OptionsOf(init + [line]) == d + [e]
  {
    var ls := init + [line];
    assert ls[..|ls| - 1] == init && ls[|ls| - 1] == line;
  }

  /** Without its last entry a map with distinct keys still has them, and lacks the last key. */
  lemma DistinctPrefix(es: OptionMap)
    requires es != [] && DistinctKeys(es, Ordinal)
    ensures var p := es[..|es| - 1];
      DistinctKeys(p, Ordinal) && IndexOfKey(p, es[|es| - 1].0, Ordinal).None?
  {
    var p := es[..|es| - 1];
    assert forall i :: 0 <= i < |p| ==> p[i] == es[i];
  }

  /** Entries that are distinct, and distinct in their folded keys, have distinct keys. */
  lemma FoldedDistinctKeys(s: OptionMap)
    requires DistinctFolded(s, EntryKey)
    ensures DistinctKeys(s, Ordinal)
  {
    forall i, j | 0 <= i < j < |s| ensures s[i].0 != s[j].0 {
      assert s[i] != s[j] by {
        assert s == s[..j] + s[j..];
        assert s[..j][i] == s[i] && s[j..][0] == s[j];
        assert multiset(s)[s[j]] == multiset(s[..j])[s[j]] + multiset(s[j..])[s[j]];
      }
      assert s[i] in multiset(s) && s[j] in multiset(s);
    }
  }

  /** Sorting well-formed options with distinct keys keeps them well-formed and distinct. */
  lemma SortedEditorOptions(o: OptionMap)
    requires forall k :: 0 <= k < |o| ==> EditorOption(o[k])
    requires DistinctKeys(o, Ordinal)
    ensures var sorted := SortBy(o, EntryKey);
      && DistinctKeys(sorted, Ordinal)
      && forall k :: 0 <= k < |sorted| ==> EditorOption(sorted[k])
  {
    var sorted := SortBy(o, EntryKey);
    UpperKeysDistinct(o);
    assert DistinctFolded(sorted, EntryKey) by {
      DistinctKeysFolded(o);
      DistinctFoldedSub(o, sorted, EntryKey);
    }
    FoldedDistinctKeys(sorted);
    PermutedEditorOptions(o, sorted);
  }

  /** Upper-case single-letter keys that differ also differ ignoring case. */
  lemma UpperKeysDistinct(o: OptionMap)
    requires forall k :: 0 <= k < |o| ==> EditorOption(o[k])
    requires DistinctKeys(o, Ordinal)
    ensures DistinctKeys(o, IgnoreCase)
  {
    forall i | 0 <= i < |o| ensures Upper(o[i].0) == o[i].0 {
      UpperIsFixed(o[i].0[0]);
      assert Upper(o[i].0) == [ToUpperChar(o[i].0[0])];
    }
  }

  /** A permutation of well-formed options is well-formed. */
  lemma PermutedEditorOptions(o: OptionMap, t: OptionMap)
    requires forall k :: 0 <= k < |o| ==> EditorOption(o[k])
    requires multiset(t) == multiset(o)
    ensures forall k :: 0 <= k < |t| ==> EditorOption(t[k])
  {
    forall k | 0 <= k < |t| ensures EditorOption(t[k]) {
      assert t[k] in multiset(o);
      var m :| 0 <= m < |o| && o[m] == t[k];
    }
  }

  /** Question lines joined with line breaks read back as the same lines and trim to
    * themselves. */
  lemma QuestionLinesRead(qls: seq<string>)
    requires qls != [] && forall k :: 0 <= k < |qls| ==> EditorQuestionLine(qls[k])
    ensures var q := Join(NewLine, qls);
      && q != [] && !IsWhite(q[0]) && !IsWhite(q[|q| - 1])
      && Trim(q) == q && Lines(q) == qls
  {
    var q := Join(NewLine, qls);
    LinesOfJoin(NewLine, qls);
    JoinEnds(NewLine, qls);
    TrimmedEnds(qls[0]);
    TrimmedEnds(qls[|qls| - 1]);
    TrimFixed(q);
  }

  /** The option text of well-formed options is the join of its shown lines; trimmed, the
    * first of them starts the options, and they parse back to the options ordered by key. */
  lemma OptionTextRead(o: OptionMap)
    requires o != [] && forall k :: 0 <= k < |o| ==> EditorOption(o[k])
    requires DistinctKeys(o, Ordinal)
    ensures var sorted := SortBy(o, EntryKey);
      var ols := OptionLines(sorted);
      var ts := TrimAll(ols);
      var opts := FormatOptions(Some(o));
      && ols != [] && opts == Join(NewLine, ols) && !IsWhite(opts[0])
      && Lines(opts) == ols && (forall k :: 0 <= k < |ols| ==> ShownOptionLine(ols[k]))
      && StartsOptions(ts[0]) && OptionsOf(ts) == sorted
  {
    var sorted := SortBy(o, EntryKey);
    assert |multiset(sorted)| == |multiset(o)|;
    SortedEditorOptions(o);
    OptionLinesRead(sorted);
    assert FormatOptions(Some(o)) == Join(NewLine, OptionLines(sorted));
  }

  /** The lines of well-formed options with distinct keys, joined by line breaks, split back
    * into those lines; trimmed, they parse back to the options. */
  lemma OptionLinesRead(es: OptionMap)
    requires es != [] && forall k :: 0 <= k < |es| ==> EditorOption(es[k])
    requires DistinctKeys(es, Ordinal)
    ensures var ols := OptionLines(es);
      var ts := TrimAll(ols);
      var opts := Join(NewLine, ols);
      && ols != [] && !IsWhite(opts[0])
      && Lines(opts) == ols && (forall k :: 0 <= k < |ols| ==> ShownOptionLine(ols[k]))
      && StartsOptions(ts[0]) && OptionsOf(ts) == es
  {
    var ols := OptionLines(es);
    var ts := TrimAll(ols);
    var opts := Join(NewLine, ols);
    OptionLinesParsed(es);
    assert StartsOptions(ts[0]) by { OptionLineParsed(es[0]); }
    assert !IsWhite(opts[0]) by { JoinEnds(NewLine, ols); }
    assert Lines(opts) == ols by { LinesOfJoin(NewLine, ols); }
    assert OptionsOf(ts) == es by { OptionsOfDistinct(ts, es); }
  }

  /** Each line of well-formed options is a shown option line whose trim parses to its option. */
  lemma OptionLinesParsed(es: OptionMap)
    requires forall k :: 0 <= k < |es| ==> EditorOption(es[k])
    ensures var ols := OptionLines(es);
      forall k :: 0 <= k < |es| ==> ShownOptionLine(ols[k]) && OptionOfLine(Trim(ols[k])) == Some(es[k])
  {
    forall k | 0 <= k < |es|
      ensures ShownOptionLine(OptionLine(es[k])) && OptionOfLine(Trim(OptionLine(es[k]))) == Some(es[k])
    {
      OptionLineParsed(es[k]);
    }
  }

  /** A question without options is read back as itself, with Options null. */
  lemma EditorRoundTripQuestion(qls: seq<string>)
    requires qls != [] && forall k :: 0 <= k < |qls| ==> EditorQuestionLine(qls[k])
    ensures ParseEditor(Join(NewLine, qls)) == Edited(Join(NewLine, qls), None)
  {
    QuestionLinesRead(qls);
    TrimAllFixed(qls);
    FirstOptionAfter(qls, []);
    assert qls + [] == qls;
  }

  /** The lines of a question and an option text placed after a blank line. */
  lemma EditorTextLines(q: string, opts: string)
    requires q != [] && !IsWhite(q[0]) && opts != [] && !IsWhite(opts[|opts| - 1])
    ensures var text := q + NewLine + NewLine + opts;
      Trim(text) == text && Lines(text) == Lines(q) + Lines(opts)
  {
    var text := q + NewLine + NewLine + opts;
    assert text[0] == q[0] && text[|text| - 1] == opts[|opts| - 1];
    TrimFixed(text);
    assert text == q + ['\r'] + ("\n\r\n" + opts);
    LinesAroundBreak(q, '\r', "\n\r\n" + opts);
    LinesOfSep("\r\n\r\n", opts);
    assert "\r\n\r\n"[1..] == "\n\r\n";
  }

  /** Shown option lines with the last one trimmed. */
  function TrimLast(ols: seq<string>): seq<string>
    requires ols != []
  {
    ols[..|ols| - 1] + [Trim(ols[|ols| - 1])]
  }

  /** Trimming the last of the shown option lines keeps them non-empty single lines, makes the
    * last one end in a non-white character, and changes none of their trims. */
  lemma TrimLastLines(ols: seq<string>)
    requires ols != [] && forall k :: 0 <= k < |ols| ==> ShownOptionLine(ols[k])
    ensures var ols3 := TrimLast(ols);
      var tl := ols3[|ols3| - 1];
      && |ols3| == |ols| && (forall k :: 0 <= k < |ols3| ==> ols3[k] != [] && NoLineBreak(ols3[k]))
      && !IsWhite(tl[|tl| - 1]) && TrimAll(ols3) == TrimAll(ols)
  {
    var last := ols[|ols| - 1];
    ShownLineTrim(last);
    TrimIdempotent(last);
  }

  /** Trimming a question and shown option lines placed after a blank line only trims the last
    * option line. */
  lemma ShownTextTrim(q: string, ols: seq<string>, text: string, trimmed: string)
    requires q != [] && !IsWhite(q[0])
    requires ols != [] && forall k :: 0 <= k < |ols| ==> ShownOptionLine(ols[k])
    requires text == q + NewLine + NewLine + Join(NewLine, ols)
    requires trimmed == q + NewLine + NewLine + Join(NewLine, TrimLast(ols))
    ensures Trim(text) == trimmed
  {
    var last := ols[|ols| - 1];
    assert ShownOptionLine(last);
    if IsWhite(last[|last| - 1]) {
      ShownTextTrimSpace(q, ols);
    } else {
      ShownTextTrimFixed(q, ols);
    }
  }

  /** The case of a last option with an empty value: its trailing space is trimmed. */
  lemma ShownTextTrimSpace(q: string, ols: seq<string>)
    requires q != [] && !IsWhite(q[0])
    requires ols != [] && forall k :: 0 <= k < |ols| ==> ShownOptionLine(ols[k])
    requires var l := ols[|ols| - 1]; l != [] && IsWhite(l[|l| - 1])
    ensures Trim(q + NewLine + NewLine + Join(NewLine, ols)) == q + NewLine + NewLine + Join(NewLine, TrimLast(ols))
  {
    var ols3 := TrimLast(ols);
    TrimLastLines(ols);
    JoinEnds(NewLine, ols3);
    JoinTrimLast(ols);
    TrimBeforeSpace(q, Join(NewLine, ols3));
  }

  /** The case of a last option with a value: the text is its own trim. */
  lemma ShownTextTrimFixed(q: string, ols: seq<string>)
    requires q != [] && !IsWhite(q[0])
    requires ols != [] && forall k :: 0 <= k < |ols| ==> ShownOptionLine(ols[k])
    requires var l := ols[|ols| - 1]; l != [] && !IsWhite(l[|l| - 1])
    ensures Trim(q + NewLine + NewLine + Join(NewLine, ols)) == q + NewLine + NewLine + Join(NewLine, TrimLast(ols))
  {
    var ols3 := TrimLast(ols);
    var opts3 := Join(NewLine, ols3);
    var text3 := q + NewLine + NewLine + opts3;
    TrimLastLines(ols);
    JoinEnds(NewLine, ols3);
    assert text3[0] == q[0] && text3[|text3| - 1] == opts3[|opts3| - 1];
    ShownLineTrim(ols[|ols| - 1]);
    assert ols3 == ols;
    TrimFixed(text3);
  }

  /** When the last shown option line ends in the space of an empty value, the joined lines are
    * the joined trimmed lines and that space. */
  lemma JoinTrimLast(ols: seq<string>)
    requires ols != [] && forall k :: 0 <= k < |ols| ==> ShownOptionLine(ols[k])
    requires var l := ols[|ols| - 1]; l != [] && IsWhite(l[|l| - 1])
    ensures Join(NewLine, ols) == Join(NewLine, TrimLast(ols)) + " "
  {
    var n := |ols|;
    var last := ols[n - 1];
    var tl := Trim(last);
    ShownLineTrim(last);
    if n > 1 {
      assert ols == ols[..n - 1] + [last] && TrimLast(ols) == ols[..n - 1] + [tl];
      JoinSnoc(NewLine, ols[..n - 1], last);
      JoinSnoc(NewLine, ols[..n - 1], tl);
    }
  }

  /** The trailing space of the option text is trimmed from the whole question box. */
  lemma TrimBeforeSpace(q: string, opts: string)
    requires q != [] && !IsWhite(q[0]) && opts != [] && !IsWhite(opts[|opts| - 1])
    ensures Trim(q + NewLine + NewLine + (opts + " ")) == q + NewLine + NewLine + opts
  {
    var text := q + NewLine + NewLine + opts;
    assert q + NewLine + NewLine + (opts + " ") == text + " ";
    assert text[0] == q[0] && text[|text| - 1] == opts[|opts| - 1];
    TrimDropsSpace(text);
  }

  /** A question and shown option lines placed after a blank line: trimming the text and
    * then each of its lines gives the trimmed question lines and the trimmed option lines. */
  lemma ShownTextLines(q: string, ols: seq<string>, text: string)
    requires q != [] && !IsWhite(q[0])
    requires ols != [] && forall k :: 0 <= k < |ols| ==> ShownOptionLine(ols[k])
    requires text == q + NewLine + NewLine + Join(NewLine, ols)
    ensures TrimAll(Lines(Trim(text))) == TrimAll(Lines(q)) + TrimAll(ols)
  {
    var ols3 := TrimLast(ols);
    var text3 := q + NewLine + NewLine + Join(NewLine, ols3);
    ShownTextTrim(q, ols, text, text3);
    TrimLastLines(ols);
    BlankLineJoinLines(q, ols3, text3);
    TrimAllConcat(Lines(q), ols3);
  }

  /** A question and non-empty single lines, the last ending in a non-white character, placed
    * after a blank line: the text is its own trim and splits into the question's lines and
    * those lines. */
  lemma BlankLineJoinLines(q: string, ls: seq<string>, text: string)
    requires q != [] && !IsWhite(q[0])
    requires ls != [] && forall k :: 0 <= k < |ls| ==> ls[k] != [] && NoLineBreak(ls[k])
    requires var l := ls[|ls| - 1]; !IsWhite(l[|l| - 1])
    requires text == q + NewLine + NewLine + Join(NewLine, ls)
    ensures Trim(text) == text && Lines(text) == Lines(q) + ls
  {
    var opts := Join(NewLine, ls);
    JoinEnds(NewLine, ls);
    EditorTextLines(q, opts);
    LinesOfJoin(NewLine, ls);
  }

  /** Trimming every line distributes over concatenation. */
  lemma TrimAllConcat(a: seq<string>, b: seq<string>)
    ensures TrimAll(a + b) == TrimAll(a) + TrimAll(b)
  {
    assert forall k :: 0 <= k < |b| ==> (a + b)[|a| + k] == b[k];
  }

  /** The parse of a text whose trimmed lines are question lines followed by option lines. */
  lemma ParseOfLines(text: string, qls: seq<string>, ols: seq<string>)
    requires TrimAll(Lines(Trim(text))) == qls + ols
    requires forall k :: 0 <= k < |qls| ==> !StartsOptions(qls[k])
    requires ols != [] && StartsOptions(ols[0])
    ensures ParseEditor(text) == Edited(Trim(Join(NewLine, qls)), Some(OptionsOf(ols)))
  {
    var ts := qls + ols;
    FirstOptionAfter(qls, ols);
    assert ts[..|qls|] == qls && ts[|qls|..] == ols;
  }

  /** A question with options is read back as itself and its options ordered by key. */
  lemma EditorRoundTripOptions(qls: seq<string>, o: OptionMap)
    requires qls != [] && forall k :: 0 <= k < |qls| ==> EditorQuestionLine(qls[k])
    requires o != [] && forall k :: 0 <= k < |o| ==> EditorOption(o[k])
    requires DistinctKeys(o, Ordinal)
    ensures var q := Join(NewLine, qls);
      ParseEditor(q + NewLine + NewLine + FormatOptions(Some(o))) == Edited(q, Some(SortBy(o, EntryKey)))
  {
    var q := Join(NewLine, qls);
    var ols := OptionLines(SortBy(o, EntryKey));
    QuestionLinesRead(qls);
    OptionTextRead(o);
    var text := q + NewLine + NewLine + FormatOptions(Some(o));
    ShownTextLines(q, ols, text);
    TrimAllFixed(qls);
    ParseOfLines(text, qls, TrimAll(ols));
  }

  /** Saving a shown record without editing it changes only this: its options come back
    * ordered by key (an empty dictionary comes back as null), and a blank AnswerText becomes
    * the answer letter. */
  lemma EditRoundTrip(r: AnswerResult, qls: seq<string>)
    requires r.Question == Join(NewLine, qls)
    requires qls != [] && forall k :: 0 <= k < |qls| ==> EditorQuestionLine(qls[k])
    requires r.Options.Some? ==>
      (forall k :: 0 <= k < |r.Options.value| ==> EditorOption(r.Options.value[k]))
      && DistinctKeys(r.Options.value, Ordinal)
    requires |r.Answer| == 1 && IsAsciiUpper(r.Answer[0])
    requires IsBlank(r.AnswerText) || r.AnswerText == r.Answer
    ensures EditResult(r, EditorText(r), AnswerBoxText(r))
      == r.(Options := if HasOptions(r.Options) then Some(SortBy(r.Options.value, EntryKey)) else None,
            AnswerText := r.Answer)
  {
    EditorShownParse(r, qls);
    AnswerBoxRead(r);
  }

  /** The question box shown for a record reads back as its question and ordered options. */
  lemma EditorShownParse(r: AnswerResult, qls: seq<string>)
    requires r.Question == Join(NewLine, qls)
    requires qls != [] && forall k :: 0 <= k < |qls| ==> EditorQuestionLine(qls[k])
    requires r.Options.Some? ==>
      (forall k :: 0 <= k < |r.Options.value| ==> EditorOption(r.Options.value[k]))
      && DistinctKeys(r.Options.value, Ordinal)
    ensures ParseEditor(EditorText(r))
      == Edited(r.Question, if HasOptions(r.Options) then Some(SortBy(r.Options.value, EntryKey)) else None)
  {
    if HasOptions(r.Options) {
      OptionTextRead(r.Options.value);
      EditorRoundTripOptions(qls, r.Options.value);
    } else {
      EditorRoundTripQuestion(qls);
    }
  }

  /** The answer box shown for a record with an answer letter keeps that letter. */
  lemma AnswerBoxRead(r: AnswerResult)
    requires |r.Answer| == 1 && IsAsciiUpper(r.Answer[0])
    requires IsBlank(r.AnswerText) || r.AnswerText == r.Answer
    ensures Trim(AnswerBoxText(r)) == r.Answer && AnswerAfterEdit(r.Answer, r.Answer) == r.Answer
  {
    TrimFixed(r.Answer);
  }

  // ---------------------------------------------------------------------------
  // The results list
  // ---------------------------------------------------------------------------

  /** A row of the results list: its Name, its STT number and the record in its Tag. The other
    * columns are TrimForView and BuildMeta of the record. */
  datatype ListItem = ListItem(Name: string, Stt: nat, Tag: AnswerResult)

  predicate DistinctNames(items: seq<ListItem>) {
    forall i, j :: 0 <= i < j < |items| ==> items[i].Name != items[j].Name
  }

  /** The first row with this Name. */
  function FindItem(items: seq<ListItem>, name: string): (r: Option<nat>)
    ensures r.Some? ==> r.value < |items| && items[r.value].Name == name
    ensures r.Some? ==> forall j :: 0 <= j < r.value ==> items[j].Name != name
    ensures r.None? ==> forall j :: 0 <= j < |items| ==> items[j].Name != name
  {
    if items == [] then None
    else if items[0].Name == name then Some(0)
    else match FindItem(items[1..], name)
      case None => None
      case Some(i) => Some(i + 1)
  }

  /** The search loop of AddResultItem. */
  method FindItemIndex(items: seq<ListItem>, name: string) returns (r: Option<nat>)
    ensures r == FindItem(items, name)
  {
    for i := 0 to |items|
      invariant forall j :: 0 <= j < i ==> items[j].Name != name
    {
      if items[i].Name == name {
        FindItemIsFirst(items, name, i);
        return Some(i);
      }
    }
    return None;
  }

  /** The first row with a name is the one FindItem finds. */
  lemma FindItemIsFirst(items: seq<ListItem>, name: string, i: nat)
    requires i < |items| && items[i].Name == name
    requires forall j :: 0 <= j < i ==> items[j].Name != name
    ensures FindItem(items, name) == Some(i)
  {
    match FindItem(items, name)
    case None =>
    case Some(k) =>
  }

  /** AddResultItem(r, index): the row with the record's FileName takes the record, and the
    * index when one is given; without such a row a new one is appended, numbered by the
    * index or else by the list's new length. */
  function Upserted(items: seq<ListItem>, r: AnswerResult, index: Option<nat>): seq<ListItem> {
    match FindItem(items, r.FileName)
    case Some(i) =>
      items[i := ListItem(items[i].Name, if index.Some? then index.value else items[i].Stt, r)]
    case None =>
      items + [ListItem(r.FileName, if index.Some? then index.value else |items| + 1, r)]
  }

  /** The list keeps at most one row per FileName: the record's row is updated in place, or
    * appended when there is none, and every other row stays as it was. */
  lemma UpsertedShape(items: seq<ListItem>, r: AnswerResult, index: Option<nat>)
    requires DistinctNames(items)
    ensures var u := Upserted(items, r, index);
      && DistinctNames(u)
      && |u| == |items| + (if FindItem(items, r.FileName).Some? then 0 else 1)
      && FindItem(u, r.FileName).Some? && u[FindItem(u, r.FileName).value].Tag == r
      && (forall i :: 0 <= i < |items| ==> u[i].Name == items[i].Name)
      && (forall i :: 0 <= i < |items| && items[i].Name != r.FileName ==> u[i] == items[i])
  {
    var u := Upserted(items, r, index);
    match FindItem(items, r.FileName)
    case Some(i) =>
      FindItemIsFirst(u, r.FileName, i);
    case None =>
      FindItemIsFirst(u, r.FileName, |items|);
  }

  /** The rows LoadResults lists: record k is row k + 1. */
  function Numbered(results: seq<AnswerResult>): (items: seq<ListItem>)
    ensures |items| == |results|
  {
    seq(|results|, k requires 0 <= k < |results| => ListItem(results[k].FileName, k + 1, results[k]))
  }

  predicate DistinctFileNames(results: seq<AnswerResult>) {
    forall i, j :: 0 <= i < j < |results| ==> results[i].FileName != results[j].FileName
  }

  /** Adding a record with a new FileName as row |results| + 1 appends it. */
  lemma NumberedSnoc(results: seq<AnswerResult>, r: AnswerResult)
    requires forall i :: 0 <= i < |results| ==> results[i].FileName != r.FileName
    ensures Upserted(Numbered(results), r, Some(|results| + 1)) == Numbered(results + [r])
  {
    assert FindItem(Numbered(results), r.FileName).None?;
  }

  /** A SaveCurrentResult update of the row that shows the record: the record goes into the
    * Tag of the row with its FileName and the STT number stays. */
  function Retagged(items: seq<ListItem>, r: AnswerResult): seq<ListItem> {
    match FindItem(items, r.FileName)
    case Some(i) => items[i := items[i].(Tag := r)]
    case None => items
  }

  // ---------------------------------------------------------------------------
  // LoadResults: the scan of the result files
  // ---------------------------------------------------------------------------

  /** The output folder and the two folders captured images are looked for in. */
  datatype Folders = Folders(outputs: string, captures: string, videoCaptures: string)

  /** At most this many result files are listed. */
  const MaxListed: nat := 200

  /** The name a result file shares with its image: its name without extension and without
    * any "_result". */
  function BaseName(file: string): string {
    Replace(FileNameWithoutExtension(file), "_result", "")
  }

  function MarkerOf(fd: Folders, file: string): string {
    Combine(fd.outputs, BaseName(file) + ".processed")
  }

  /** The image of a result file: {base}.png in the captures folder, else in the video
    * captures folder, else the record's own ImagePath when it is set and exists. */
  function ResolveImage(fd: Folders, files: set<string>, file: string, r: AnswerResult): Option<string> {
    var imageName := BaseName(file) + ".png";
    var path1 := Combine(fd.captures, imageName);
    var path2 := Combine(fd.videoCaptures, imageName);
    if path1 in files then Some(path1)
    else if path2 in files then Some(path2)
    else if !IsBlank(r.ImagePath) && r.ImagePath in files then Some(r.ImagePath)
    else None
  }

  /** seenImages holds the lower-cased image file name and compares ignoring case; the model
    * keeps the folded form. */
  function ImageKey(imagePath: string): string { Upper(Lower(FileName(imagePath))) }

  /** seenContent compares content keys ignoring case; the model keeps the folded form. */
  function ContentKey(r: AnswerResult): string { Upper(BuildContentKey(r)) }

  /** The scan's state: the records listed so far, the files that exist and the two sets of
    * keys already seen. */
  datatype Scan = Scan(results: seq<AnswerResult>, files: set<string>,
                       seenImages: set<string>, seenContent: set<string>)

  /** One result file. An unreadable file is skipped. A file whose image resolves nowhere,
    * or whose image another listed record already has, is deleted with its marker; one whose
    * content a listed record already has is deleted with its marker and its image. Any
    * other file is listed with its ImagePath and FileName set to the image. */
  function ScanStep(fd: Folders, s: Scan, file: string, read: string -> Option<AnswerResult>): Scan {
    match read(file)
    case None => s
    case Some(r) =>
      var marker := MarkerOf(fd, file);
      match ResolveImage(fd, s.files, file, r)
      case None => s.(files := s.files - {file, marker})
      case Some(image) =>
        if ImageKey(image) in s.seenImages then s.(files := s.files - {file, marker})
        else if ContentKey(r) in s.seenContent then s.(files := s.files - {file, marker, image})
        else Admit(s, r, image)
  }

  /** The listing of a record with its image: it is added and its two keys are seen. */
  function Admit(s: Scan, r: AnswerResult, image: string): Scan {
    s.(results := s.results + [r.(ImagePath := image, FileName := FileName(image))],
       seenImages := s.seenImages + {ImageKey(image)},
       seenContent := s.seenContent + {ContentKey(r)})
  }

  /** The scan of the result files in list order. */
  function ScanAll(fd: Folders, s: Scan, fs: seq<string>, read: string -> Option<AnswerResult>): Scan {
    if fs == [] then s
    else ScanStep(fd, ScanAll(fd, s, fs[..|fs| - 1], read), fs[|fs| - 1], read)
  }

  lemma ScanAllSnoc(fd: Folders, s: Scan, fs: seq<string>, f: string, read: string -> Option<AnswerResult>)
    ensures ScanAll(fd, s, fs + [f], read) == ScanStep(fd, ScanAll(fd, s, fs, read), f, read)
  {
    assert (fs + [f])[..|fs|] == fs;
  }

  /** The scan before any file: nothing listed and nothing seen. */
  function EmptyScan(files: set<string>): Scan { Scan([], files, {}, {}) }

  /** What LoadResults lists: the scan of the first MaxListed files. */
  function LoadedScan(fd: Folders, files: set<string>, listing: seq<string>,
                  read: string -> Option<AnswerResult>): Scan {
    var n := if |listing| < MaxListed then |listing| else MaxListed;
    ScanAll(fd, EmptyScan(files), listing[..n], read)
  }

  /** The listed records have pairwise different image names and pairwise different content
    * keys, both ignoring case, and each one's FileName is its image's name; every key they
    * carry has been seen. */
  ghost predicate ScanValid(s: Scan) {
    && (forall i :: 0 <= i < |s.results| ==>
      && ImageKey(s.results[i].ImagePath) in s.seenImages
      && ContentKey(s.results[i]) in s.seenContent
      && s.results[i].FileName == FileName(s.results[i].ImagePath))
    && (forall i, j :: 0 <= i < j < |s.results| ==>
      && ImageKey(s.results[i].ImagePath) != ImageKey(s.results[j].ImagePath)
      && ContentKey(s.results[i]) != ContentKey(s.results[j]))
  }

  /** One step keeps the scan valid, lists at most one more record and only deletes files. */
  lemma ScanStepValid(fd: Folders, s: Scan, file: string, read: string -> Option<AnswerResult>)
    requires ScanValid(s)
    ensures var t := ScanStep(fd, s, file, read);
      && ScanValid(t) && t.files <= s.files
      && |s.results| <= |t.results| <= |s.results| + 1
      && t.results[..|s.results|] == s.results
  {
    var t := ScanStep(fd, s, file, read);
    if read(file).Some? {
      var r := read(file).value;
      var found := ResolveImage(fd, s.files, file, r);
      if found.Some? && ImageKey(found.value) !in s.seenImages && ContentKey(r) !in s.seenContent {
        assert t == Admit(s, r, found.value);
        AdmitValid(s, r, found.value);
      } else {
        assert t.results == s.results && t.seenImages == s.seenImages && t.seenContent == s.seenContent;
      }
    } else {
      assert t == s;
    }
  }

  /** Listing a record whose keys have not been seen keeps the scan valid. */
  lemma AdmitValid(s: Scan, r: AnswerResult, image: string)
    requires ScanValid(s) && ImageKey(image) !in s.seenImages && ContentKey(r) !in s.seenContent
    ensures var t := Admit(s, r, image);
      && ScanValid(t) && t.files == s.files
      && |t.results| == |s.results| + 1 && t.results[..|s.results|] == s.results
  {
    var r2 := r.(ImagePath := image, FileName := FileName(image));
    ContentKeyReadsContentOnly(r, r2);
    var t := Admit(s, r, image);
    var n := |s.results|;
    assert t.results == s.results + [r2];
    assert t.results[..n] == s.results;
    forall i | 0 <= i < |t.results|
      ensures && ImageKey(t.results[i].ImagePath) in t.seenImages
              && ContentKey(t.results[i]) in t.seenContent
              && t.results[i].FileName == FileName(t.results[i].ImagePath)
    {
      if i < n { assert t.results[i] == s.results[i]; }
    }
    forall i, j | 0 <= i < j < |t.results|
      ensures && ImageKey(t.results[i].ImagePath) != ImageKey(t.results[j].ImagePath)
              && ContentKey(t.results[i]) != ContentKey(t.results[j])
    {
      assert t.results[i] == s.results[i];
      if j < n {
        assert t.results[j] == s.results[j];
      } else {
        assert t.results[j] == r2 && ContentKey(r2) == ContentKey(r);
        assert ContentKey(s.results[i]) in s.seenContent && ImageKey(s.results[i].ImagePath) in s.seenImages;
      }
    }
  }

  /** The whole scan keeps these facts. */
  lemma {:induction false} ScanAllValid(fd: Folders, s: Scan, fs: seq<string>, read: string -> Option<AnswerResult>)
    requires ScanValid(s)
    ensures var t := ScanAll(fd, s, fs, read);
      && ScanValid(t) && t.files <= s.files
      && |s.results| <= |t.results| <= |s.results| + |fs|
      && t.results[..|s.results|] == s.results
  {
    if fs != [] {
      var p := ScanAll(fd, s, fs[..|fs| - 1], read);
      ScanAllValid(fd, s, fs[..|fs| - 1], read);
      ScanStepValid(fd, p, fs[|fs| - 1], read);
      var t := ScanAll(fd, s, fs, read);
      assert t.results[..|s.results|] == p.results[..|p.results|][..|s.results|];
    }
  }

  /** The scan of a longer listing continues the scan of its prefix. */
  lemma {:induction false} ScanAllAppend(fd: Folders, s: Scan, a: seq<string>, b: seq<string>,
                                         read: string -> Option<AnswerResult>)
    ensures ScanAll(fd, s, a + b, read) == ScanAll(fd, ScanAll(fd, s, a, read), b, read)
    decreases |b|
  {
    if b == [] {
      assert a + b == a;
    } else {
      assert (a + b)[..|a + b| - 1] == a + b[..|b| - 1];
      ScanAllAppend(fd, s, a, b[..|b| - 1], read);
    }
  }

  /** The scan only deletes files. */
  lemma {:induction false} ScanAllShrinks(fd: Folders, s: Scan, fs: seq<string>, read: string -> Option<AnswerResult>)
    ensures ScanAll(fd, s, fs, read).files <= s.files
  {
    if fs != [] {
      ScanAllShrinks(fd, s, fs[..|fs| - 1], read);
    }
  }

  /** A readable result file the scan does not list is gone afterwards, and so is its marker.
    * In particular a result file whose image resolves nowhere is deleted with its marker. */
  lemma ScanDropped(fd: Folders, s: Scan, fs: seq<string>, k: nat, read: string -> Option<AnswerResult>)
    requires k < |fs| && read(fs[k]).Some?
    ensures var before := ScanAll(fd, s, fs[..k], read);
      var step := ScanStep(fd, before, fs[k], read);
      var after := ScanAll(fd, s, fs, read);
      && (ResolveImage(fd, before.files, fs[k], read(fs[k]).value).None? ==> step.results == before.results)
      && (step.results == before.results ==> fs[k] !in after.files && MarkerOf(fd, fs[k]) !in after.files)
  {
    var before := ScanAll(fd, s, fs[..k], read);
    StepDropped(fd, before, fs[k], read);
    ScanAfterStep(fd, s, fs, k, read);
  }

  /** The scan of the whole listing is the scan of what follows file k, started after it. */
  lemma ScanAfterStep(fd: Folders, s: Scan, fs: seq<string>, k: nat, read: string -> Option<AnswerResult>)
    requires k < |fs|
    ensures ScanAll(fd, s, fs, read).files <= ScanStep(fd, ScanAll(fd, s, fs[..k], read), fs[k], read).files
  {
    assert fs == fs[..k + 1] + fs[k + 1..];
    assert fs[..k + 1][..k] == fs[..k];
    ScanAllAppend(fd, s, fs[..k + 1], fs[k + 1..], read);
    ScanAllShrinks(fd, ScanAll(fd, s, fs[..k + 1], read), fs[k + 1..], read);
  }

  /** A step that does not list its file deletes it and its marker. */
  lemma StepDropped(fd: Folders, s: Scan, file: string, read: string -> Option<AnswerResult>)
    requires read(file).Some?
    ensures var step := ScanStep(fd, s, file, read);
      && (ResolveImage(fd, s.files, file, read(file).value).None? ==> step.results == s.results)
      && (step.results == s.results ==> file !in step.files && MarkerOf(fd, file) !in step.files)
  {
  }

  /** Valid scans list records with pairwise different FileNames. */
  lemma ValidDistinctNames(s: Scan)
    requires ScanValid(s)
    ensures DistinctFileNames(s.results)
  {
  }

  /** What LoadResults lists: at most MaxListed records, with pairwise different image names
    * and pairwise different content keys (both ignoring case), each named after its image;
    * the scan deletes files and creates none. */
  lemma LoadedScanShape(fd: Folders, files: set<string>, listing: seq<string>,
                        read: string -> Option<AnswerResult>)
    ensures var t := LoadedScan(fd, files, listing, read);
      && |t.results| <= MaxListed && |t.results| <= |listing|
      && t.files <= files
      && (forall i :: 0 <= i < |t.results| ==> t.results[i].FileName == FileName(t.results[i].ImagePath))
      && (forall i, j :: 0 <= i < j < |t.results| ==>
        && ImageKey(t.results[i].ImagePath) != ImageKey(t.results[j].ImagePath)
        && ContentKey(t.results[i]) != ContentKey(t.results[j]))
      && DistinctFileNames(t.results)
  {
    var n := if |listing| < MaxListed then |listing| else MaxListed;
    ScanAllValid(fd, EmptyScan(files), listing[..n], read);
    ValidDistinctNames(LoadedScan(fd, files, listing, read));
  }

  /** The body of the LoadResults loop for one file. */
  method ScanFile(fd: Folders, s: Scan, file: string, read: string -> Option<AnswerResult>) returns (t: Scan)
    ensures t == ScanStep(fd, s, file, read)
  {
    t := s;
    var parsed := read(file);
    if parsed.None? {
      return;
    }
    var r := parsed.value;
    var jsonBaseName := BaseName(file);
    var actualImagePath := FindImage(fd, s.files, file, r);
    var markerFile := Combine(fd.outputs, jsonBaseName + ".processed");
    if actualImagePath.None? {
      t := s.(files := s.files - {file, markerFile});
      return;
    }
    var image := actualImagePath.value;
    var imageKey := Upper(Lower(FileName(image)));
    if imageKey in s.seenImages {
      t := s.(files := s.files - {file, markerFile});
      return;
    }
    var contentKey := Upper(BuildContentKey(r));
    if contentKey in s.seenContent {
      t := s.(files := s.files - {file, markerFile, image});
      return;
    }
    t := s.(results := s.results + [r.(ImagePath := image, FileName := FileName(image))],
            seenImages := s.seenImages + {imageKey},
            seenContent := s.seenContent + {contentKey});
  }

  /** The image lookup of the LoadResults loop. */
  method FindImage(fd: Folders, files: set<string>, file: string, r: AnswerResult) returns (actualImagePath: Option<string>)
    ensures actualImagePath == ResolveImage(fd, files, file, r)
  {
    var imageName := BaseName(file) + ".png";
    var path1 := Combine(fd.captures, imageName);
    var path2 := Combine(fd.videoCaptures, imageName);
    actualImagePath := None;
    if path1 in files {
      actualImagePath := Some(path1);
    } else if path2 in files {
      actualImagePath := Some(path2);
    } else if !IsBlank(r.ImagePath) && r.ImagePath in files {
      actualImagePath := Some(r.ImagePath);
    }
  }

  /** The path SaveCurrentResult writes a record to. */
  function ResultJsonPath(outputsDir: string, fileName: string): string {
    Combine(outputsDir, FileNameWithoutExtension(fileName) + "_result.json")
  }

  /** The results tab of the control panel: the rows of its list, the record being edited and
    * the files of the folders it reads, as names. */
  class ResultsPanel {
    var items: seq<ListItem>
    var current: Option<AnswerResult>
    var files: set<string>
    const folders: Folders

    constructor(folders: Folders, files: set<string>)
      ensures this.folders == folders && this.files == files
      ensures items == [] && current == None
    {
      this.folders := folders;
      this.files := files;
      items := [];
      current := None;
    }

    /** AddResultItem(r, index) */
    method AddResultItem(r: AnswerResult, index: Option<nat>)
      modifies this
      ensures items == Upserted(old(items), r, index)
      ensures files == old(files) && current == old(current)
    {
      var found := FindItemIndex(items, r.FileName);
      if found.Some? {
        var i := found.value;
        items := items[i := ListItem(items[i].Name, if index.Some? then index.value else items[i].Stt, r)];
      } else {
        items := items + [ListItem(r.FileName, if index.Some? then index.value else |items| + 1, r)];
      }
    }

    /** ShowResultDetails: the selected row's record becomes the record being edited and the
      * two boxes show it; without a selection nothing is being edited. */
    method ShowResultDetails(selected: Option<nat>) returns (questionBox: string, answerBox: string)
      requires selected.Some? ==> selected.value < |items|
      modifies this
      ensures selected.None? ==> current == None && questionBox == [] && answerBox == []
      ensures selected.Some? ==>
        var r := old(items)[selected.value].Tag;
        current == Some(r) && questionBox == EditorText(r) && answerBox == AnswerBoxText(r)
      ensures items == old(items) && files == old(files)
    {
      if selected.None? {
        current := None;
        return [], [];
      }
      var r := items[selected.value].Tag;
      current := Some(r);
      questionBox := EditorText(r);
      answerBox := AnswerBoxText(r);
    }

    /** SaveCurrentResult: the record being edited takes the parse of the two boxes, is
      * written to its result file and shown in its row. With nothing being edited nothing
      * changes. */
    method SaveCurrentResult(questionBox: string, answerBox: string)
      modifies this
      ensures old(current).None? ==> items == old(items) && files == old(files) && current == old(current)
      ensures old(current).Some? ==>
        var edited := EditResult(old(current).value, questionBox, answerBox);
        && current == Some(edited)
        && files == old(files) + {ResultJsonPath(folders.outputs, edited.FileName)}
        && items == Retagged(old(items), edited)
    {
      if current.None? {
        return;
      }
      var questionText := ReadEditor(questionBox);
      var answerText := Trim(answerBox);
      var previous := current.value;
      var edited := previous.(Question := questionText.question, Options := questionText.options,
                              AnswerText := answerText);
      if !IsBlank(answerText) {
        if |answerText| >= 2 && IsAsciiUpper(answerText[0]) && (answerText[1] == '.' || IsWhite(answerText[1])) {
          edited := edited.(Answer := [answerText[0]]);
        } else if |answerText| == 1 && IsLetter(answerText[0]) {
          edited := edited.(Answer := Upper(answerText));
        }
      }
      assert edited == EditResult(previous, questionBox, answerBox);
      var written := ResultJsonPath(folders.outputs, edited.FileName);
      current := Some(edited);
      files := files + {written};
      var found := FindItemIndex(items, edited.FileName);
      if found.Some? {
        items := items[found.value := items[found.value].(Tag := edited)];
      }
    }

    /** LoadResults(listing, read): the list is emptied and refilled from the first MaxListed
      * result files in the order given, read through read; duplicates and orphans are
      * deleted as the scan goes, and every row is then renumbered by its position. */
    method LoadResults(listing: seq<string>, read: string -> Option<AnswerResult>)
      modifies this
      ensures var scan := LoadedScan(folders, old(files), listing, read);
        files == scan.files && items == Numbered(scan.results) && current == old(current)
    {
      var n := if |listing| < MaxListed then |listing| else MaxListed;
      items := [];
      var scan := ScanListing(listing[..n], read);
      RenumberedNumbered(scan.results);
      Renumber();
    }

    /** The foreach over the taken files, from an empty list: each file is scanned in turn
      * and what the scan lists becomes the rows. */
    method ScanListing(take: seq<string>, read: string -> Option<AnswerResult>) returns (scan: Scan)
      requires items == []
      modifies this
      ensures scan == ScanAll(folders, EmptyScan(old(files)), take, read)
      ensures files == scan.files && items == Numbered(scan.results) && current == old(current)
    {
      scan := EmptyScan(files);
      ghost var start := scan;
      var idx := 1;
      for k := 0 to |take|
        invariant scan == ScanAll(folders, start, take[..k], read) && ScanValid(scan)
        invariant files == scan.files && items == Numbered(scan.results) && idx == |scan.results| + 1
        invariant current == old(current)
      {
        assert take[..k + 1] == take[..k] + [take[k]];
        scan, idx := LoadFile(start, take[..k], scan, take[k], read, idx);
      }
      assert take[..|take|] == take;
    }

    /** One pass of the LoadResults loop: the file is scanned, and a record it lists is
      * added as row idx. */
    method LoadFile(ghost start: Scan, ghost done: seq<string>, scan: Scan, file: string,
                    read: string -> Option<AnswerResult>, idx: nat)
      returns (next: Scan, nextIdx: nat)
      requires scan == ScanAll(folders, start, done, read)
      requires ScanValid(scan) && idx == |scan.results| + 1
      requires files == scan.files && items == Numbered(scan.results)
      modifies this
      ensures next == ScanStep(folders, scan, file, read) && nextIdx == |next.results| + 1
      ensures next == ScanAll(folders, start, done + [file], read) && ScanValid(next)
      ensures files == next.files && items == Numbered(next.results) && current == old(current)
    {
      next := ScanFile(folders, scan, file, read);
      ScanStepValid(folders, scan, file, read);
      ScanAllSnoc(folders, start, done, file, read);
      ValidDistinctNames(next);
      nextIdx := AddListed(scan, next, idx);
      files := next.files;
    }

    /** The AddResultItem(r, idx++) of the LoadResults loop, for a scan step that listed r. */
    method AddListed(scan: Scan, next: Scan, idx: nat) returns (nextIdx: nat)
      requires DistinctFileNames(next.results) && idx == |scan.results| + 1
      requires |scan.results| <= |next.results| <= |scan.results| + 1
      requires next.results[..|scan.results|] == scan.results
      requires items == Numbered(scan.results)
      modifies this
      ensures nextIdx == |next.results| + 1 && items == Numbered(next.results)
      ensures files == old(files) && current == old(current)
    {
      nextIdx := idx;
      if |next.results| > |scan.results| {
        var r := next.results[|scan.results|];
        assert next.results == scan.results + [r];
        NumberedSnoc(scan.results, r);
        AddResultItem(r, Some(idx));
        nextIdx := idx + 1;
      } else {
        assert next.results == next.results[..|scan.results|];
      }
    }

    /** The loop that writes each row's position into its STT column. */
    method Renumber()
      modifies this
      ensures items == Renumbered(old(items))
      ensures files == old(files) && current == old(current)
    {
      for i := 0 to |items|
        invariant |items| == |old(items)|
        invariant forall j :: 0 <= j < |items| ==> items[j] == (if j < i then old(items)[j].(Stt := j + 1) else old(items)[j])
        invariant files == old(files) && current == old(current)
      {
        items := items[i := items[i].(Stt := i + 1)];
      }
    }
  }

  /** Every row numbered by its position. */
  function Renumbered(items: seq<ListItem>): (r: seq<ListItem>)
    ensures |r| == |items|
  {
    seq(|items|, j requires 0 <= j < |items| => items[j].(Stt := j + 1))
  }

  /** The renumbering after the scan changes nothing: the scan already numbered the rows by
    * position. */
  lemma RenumberedNumbered(results: seq<AnswerResult>)
    ensures Renumbered(Numbered(results)) == Numbered(results)
  {
  }
}
