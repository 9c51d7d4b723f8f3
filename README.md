# ToolCapQuestion in Dafny

ToolCapQuestion is a Windows tray tool for multiple-choice exams:

- A hotkey captures a chosen region of the screen, or a fixed region. Frames cut from a video, and PNG files that appear in the capture folder, come in the same way.
- The capture goes through a two-stage pipeline:
  - **Stage one** reads the image with OCR. It retries up to three times, falls back to sample text when the engine fails, and can use a cloud OCR instead.
  - **Stage two** sends the text to an AI model, up to three times. It checks the reply against the OCR text and saves one answer record (`{name}_result.json`) per question.
- Both stages sit behind check-then-insert ledgers. These drop images with the same bytes, OCR texts that are near copies, questions whose number or id was already seen, and answers whose content was already saved.
- A control panel lists the saved answers, removes duplicate and orphaned records, and lets the user edit a question, its options and its answer.

This project models the decision logic of all of this and proves what it promises.

- **Pure computations are functions with lemmas.** These cover the text heuristics, the AI-reply parsers, the content key, question-metadata extraction, settings normalisation, the hotkey parser, the mock OCR text and the command-line OCR quoting.
- **Code that changes state step by step is imperative Dafny.** This covers:
  - the pipeline as a class holding its ledgers and the set of existing files;
  - the watcher, the video frame extractor, the results panel and the capture guard of the tray application, each a class;
  - `DetectVerticalContentArea`, a loop over a two-dimensional pixel array.

  Each method is proved against a specification function of the old state and its inputs. The properties the source promises are then proved about that function.

Everything the logic cannot see is a parameter:

- the OCR engines and the AI, as the sequence of results their successive calls return;
- SHA-256 and `string.GetHashCode`, as values given with the image;
- JSON parsing, as a function from text to the root object's members, or None;
- the process environment, as a function from a name to its value;
- the clock, as an opaque timestamp;
- the file system, as the set of paths that exist.

Every double the source compares against a threshold is a quotient of two counts. The model compares the counts by cross-multiplication:

- similarity ≥ 0.97 becomes `100 * intersection >= 97 * union`;
- coverage ≥ 0.10 becomes `10 * overlap >= total`;
- "at least 90% of the sampled columns are dark" becomes `10 * dark >= 9 * samples`.

Three further modelling choices:

- Regular expressions are modelled as the language they accept at a position, with the backtracking resolved by hand.
- `Dictionary<string,string>` is a sequence of entries in insertion order, which is its enumeration order when nothing is removed. Keys are compared ordinally or ignoring case, as each dictionary's comparer says.
- `Environment.NewLine` is `"\r\n"`.

## Model

| member | source | states |
|---|---|---|
| Answers.OptionParts | CaptureRegionApp/Processing/CapturePipeline.cs:1352-1358 | one "{Key}:{Value}" part per option when the dictionary is non-empty, none otherwise |
| Answers.ContentKeyOf | CaptureRegionApp/Processing/CapturePipeline.cs:1345-1370 | the content key contains no CR or LF and no two adjacent white-space characters |
| Answers.ContentKeyIgnoresOptionOrder | CaptureRegionApp/Processing/CapturePipeline.cs:1354 | two records whose options are the same entries in any insertion order, with case-insensitively distinct keys, get the same key |
| Answers.ContentKeyReadsContentOnly | CaptureRegionApp/Processing/CapturePipeline.cs:1345-1363 | the key depends only on Question, Options and AnswerText (Answer when AnswerText is blank) |
| Answers.EmptiedRecordKey | CaptureRegionApp/Processing/CapturePipeline.cs:1345-1370 | a record with empty question, no options and empty answers has the key "\|" |
| QuestionMeta.NumberMatchAt | CaptureRegionApp/Processing/CapturePipeline.cs:1384 | a match of `\b(\d{1,3}\s*[:：/]\s*\d{1,3})\b` starting at i ends after i |
| QuestionMeta.DigitRunEnd | CaptureRegionApp/Processing/CapturePipeline.cs:1384 | the end of the greedy `\d` run: every character before it is a digit and the one at it is not |
| QuestionMeta.WhiteRunEnd | CaptureRegionApp/Processing/CapturePipeline.cs:1384-1391 | the end of the greedy `\s` run: every character before it is white space and the one at it is not |
| QuestionMeta.Leftmost | CaptureRegionApp/Processing/CapturePipeline.cs:1384-1391 | Regex.Match's left-to-right scan: a found position lies in range and qualifies |
| QuestionMeta.LeftmostIsFirst | CaptureRegionApp/Processing/CapturePipeline.cs:1384-1391 | no earlier position qualifies than the one found, and nothing is found only when no position qualifies |
| QuestionMeta.LeftmostAt | CaptureRegionApp/Processing/CapturePipeline.cs:1384-1391 | the scan returns the first qualifying position |
| QuestionMeta.FindNumber | CaptureRegionApp/Processing/CapturePipeline.cs:1384 | the scan for a number: what it returns is a match of the number pattern, with its start and end in range |
| QuestionMeta.IdMatchAt | CaptureRegionApp/Processing/CapturePipeline.cs:1391 | a match of `\[\s*(\d{3,})\s*\]` captures at least three digits before the closing bracket |
| QuestionMeta.FindId | CaptureRegionApp/Processing/CapturePipeline.cs:1391 | the scan for an id: what it returns is the start of a match of the id pattern |
| QuestionMeta.RemoveSpaces | CaptureRegionApp/Processing/CapturePipeline.cs:1387 | the result has no space and is no longer than the input |
| QuestionMeta.NumberText | CaptureRegionApp/Processing/CapturePipeline.cs:1387 | the captured number is non-empty and free of spaces |
| QuestionMeta.IdText | CaptureRegionApp/Processing/CapturePipeline.cs:1394 | the id is "[" + at least three digits + "]" |
| QuestionMeta.ExtractQuestionMeta | CaptureRegionApp/Processing/CapturePipeline.cs:1373-1398 | blank text gives (null, null); a found number has no spaces; a found id is a bracketed run of three or more digits |
| Heuristics.CalculateSimilarity | CaptureRegionApp/Processing/CapturePipeline.cs:590-609 | the Jaccard ratio is at most 1, and its denominator is non-zero iff both texts are non-blank and both have a token longer than one character |
| Heuristics.SimilaritySymmetric | CaptureRegionApp/Processing/CapturePipeline.cs:590-609 | similarity is symmetric in its two texts |
| Heuristics.NearDuplicateOfItself | CaptureRegionApp/Processing/CapturePipeline.cs:564-609 | a text is a near duplicate of itself iff its normalised form has a token of two or more characters |
| Heuristics.DisjointNotSimilar | CaptureRegionApp/Processing/CapturePipeline.cs:590-609 | texts with disjoint token sets never reach the 0.97 threshold |
| Heuristics.CountLinesTrim | CaptureRegionApp/Processing/CapturePipeline.cs:1317-1334 | counting option lines on the trimmed text gives the count on the raw text |
| Heuristics.LikelyWhenGated | CaptureRegionApp/Processing/CapturePipeline.cs:1310-1342 | a text that passes the multiple-choice gate and is at least 20 characters long once trimmed is a likely question (also the gate at lines 1019-1048) |
| Heuristics.ChoiceLinesAreOptionLines | CaptureRegionApp/Processing/CapturePipeline.cs:1328-1330 | every line the gate counts (`^[A-Da-d][\.\):]\s*\S+`) is an option line of the likeness test (also the gate pattern at line 1041) |
| Heuristics.LikelyFromOptionCount | CaptureRegionApp/Processing/CapturePipeline.cs:1336-1341 | two option lines plus twenty trimmed characters make a likely question |
| Heuristics.CountIn | CaptureRegionApp/Processing/CapturePipeline.cs:1009-1010 | the overlap count is at most the token count, equal to it iff every token is in the OCR set, and zero iff none is |
| Heuristics.NonBlank | CaptureRegionApp/Processing/CapturePipeline.cs:991 | exactly the non-blank option values are kept |
| Heuristics.CalculateCoverageRatio | CaptureRegionApp/Processing/CapturePipeline.cs:965-1013 | the denominator is the OCR token count, the numerator at most the extracted token count, and 0/0 when nothing was extracted |
| Heuristics.VerbatimQuestionCovers | CaptureRegionApp/Processing/CapturePipeline.cs:965-1013 | a question copied from the OCR text covers all of it and passes the 10% test |
| Heuristics.NothingExtractedNotCovered | CaptureRegionApp/Processing/CapturePipeline.cs:984-997 | a blank question with no non-blank option value never passes the coverage test |
| Heuristics.MapFilter | CaptureRegionApp/Processing/CapturePipeline.cs:618-673 | the kept lines are images of input lines, none of them dropped |
| Heuristics.FirstWhere | CaptureRegionApp/Processing/CapturePipeline.cs:691-703 | the first option line at or after a position, or none exists |
| Heuristics.LastWhere | CaptureRegionApp/Processing/CapturePipeline.cs:704 | the last option line, or none exists |
| Heuristics.BlockRange | CaptureRegionApp/Processing/CapturePipeline.cs:697-716 | the block covers every option line, starts min(3, first) lines before the first one, and ends on an option line; with no option line it is all lines |
| Heuristics.BlockLines | CaptureRegionApp/Processing/CapturePipeline.cs:612-717 | blank or all-noise text comes back unchanged; otherwise the block's lines are exactly the chosen range of the filtered lines |
| Heuristics.FilteredSingleLines | CaptureRegionApp/Processing/CapturePipeline.cs:618-679 | every line kept by the noise filter is non-empty and has no line break |
| AiReply.ChoiceKey | CaptureRegionApp/Processing/CapturePipeline.cs:843-879 | an upper-cased choice letter is one of "A".."D" and equals the captured letter ignoring case |
| AiReply.CloseFrom | CaptureRegionApp/Processing/CapturePipeline.cs:730-739 | the first index where the running brace count is back to 0, or no such index exists |
| AiReply.FindObjectEnd | CaptureRegionApp/Processing/CapturePipeline.cs:727-739 | the brace-counting loop computes the end index of the object that starts at the first '{' |
| AiReply.ClosedObject | CaptureRegionApp/Processing/CapturePipeline.cs:724-743 | the end stays at the start iff the count never returns to 0; otherwise the object ends on '}' with balanced braces and every proper prefix has more '{' than '}' |
| AiReply.Property | CaptureRegionApp/Processing/CapturePipeline.cs:749-771 | TryGetProperty finds a member of that name, and fails only when none exists |
| AiReply.OptionsOfProps | CaptureRegionApp/Processing/CapturePipeline.cs:773-777 | the options dictionary has ordinally distinct keys, each the name of an input member |
| AiReply.FirstBrace | CaptureRegionApp/Processing/CapturePipeline.cs:724 | IndexOf('{'): the first '{', or none exists |
| AiReply.CollectJsonOptions | CaptureRegionApp/Processing/CapturePipeline.cs:773-777 | the loop over the options object builds the dictionary OptionsOfProps describes |
| AiReply.ReadJson | CaptureRegionApp/Processing/CapturePipeline.cs:745-780 | the fields read from a parsed object agree with FromJson |
| AiReply.TryParseJson | CaptureRegionApp/Processing/CapturePipeline.cs:724-783 | the JSON branch yields a result only for an object that closes past its start and parses readably |
| AiReply.ParseAIResponse | CaptureRegionApp/Processing/CapturePipeline.cs:719-793 | the JSON reading when it succeeds, the plain-text fallback for an unclosed object, a parse failure or a non-string field |
| AiReply.EmptyObjectKept | CaptureRegionApp/Processing/CapturePipeline.cs:741-781 | an object that parses with no members is returned with empty fields and never goes to the fallback |
| AiReply.JsonOptionsDistinct | CaptureRegionApp/Processing/CapturePipeline.cs:770-778 | options taken from JSON have ordinally distinct keys |
| AiReply.TrimmedLines | CaptureRegionApp/Processing/CapturePipeline.cs:802-804 | one trimmed line per non-empty piece between CR/LF |
| AiReply.AnswerLetterAt | CaptureRegionApp/Processing/CapturePipeline.cs:821 | a match of the answer-line pattern puts a letter A-D at index 8 or later |
| AiReply.OptionWhiteStart | CaptureRegionApp/Processing/CapturePipeline.cs:839 | the white run of `^([A-Da-d])[.)]?\s+` starts right after the letter or after its mark |
| AiReply.OptionLabel | CaptureRegionApp/Processing/CapturePipeline.cs:839-845 | a line is labelled iff it matches the option pattern, and its key is one of "A".."D" |
| AiReply.FindLoneLetter | CaptureRegionApp/Processing/CapturePipeline.cs:859-875 | the leftmost match of `\b([A-D])\b`, ignoring case, or none exists |
| AiReply.LoneLetter | CaptureRegionApp/Processing/CapturePipeline.cs:857-880 | the lone letter is "" or one of "A".."D" |
| AiReply.ScanLabelLines | CaptureRegionApp/Processing/CapturePipeline.cs:812-828 | the first loop computes the question and answer labels ScanLabels describes |
| AiReply.CollectOptions | CaptureRegionApp/Processing/CapturePipeline.cs:837-847 | the option loop builds the dictionary OptionsOf describes, later duplicates overwriting |
| AiReply.ParseFallbackPlainText | CaptureRegionApp/Processing/CapturePipeline.cs:795-864 | the method computes FallbackOf(text) |
| AiReply.AnswerLineOf | CaptureRegionApp/Processing/CapturePipeline.cs:821-826 | an answer line yields an answer iff the pattern finds a letter; the answer is one letter A-D equal to that letter ignoring case, and the answer text is non-empty and starts with it |
| AiReply.ScanLabelsAnswer | CaptureRegionApp/Processing/CapturePipeline.cs:812-828 | after the first loop the answer is "" or A-D, blank exactly when the answer text is, and the text starts with the letter |
| AiReply.FallbackHeadLetterDead | CaptureRegionApp/Processing/CapturePipeline.cs:850-854 | the branch that infers the answer from the answer text can never run |
| AiReply.OptionsOfKeys | CaptureRegionApp/Processing/CapturePipeline.cs:837-847 | option keys lie in A-D and are distinct ignoring case; the dictionary is null iff no line is an option line, and non-empty otherwise |
| AiReply.FallbackShape | CaptureRegionApp/Processing/CapturePipeline.cs:795-864 | the answer is "" or A-D, option keys lie in {A,B,C,D} without duplicates, null options only without option lines, and number and id are null |
| AiReply.RecoveredAnswer | CaptureRegionApp/Processing/CapturePipeline.cs:874-889 | the recovered answer is "" or one of "A".."D" |
| AiReply.RecoverLabel | CaptureRegionApp/Processing/CapturePipeline.cs:902-936 | a line is labelled iff it is an option line, and its key is one of "A".."D" |
| AiReply.IndicesWhere | CaptureRegionApp/Processing/CapturePipeline.cs:905-917 | the option indices are ascending, all and only the option lines, and the first is the minimum |
| AiReply.AppendContinuation | CaptureRegionApp/Processing/CapturePipeline.cs:939-944 | the continuation loop appends " " + each following non-option line |
| AiReply.BuildOptions | CaptureRegionApp/Processing/CapturePipeline.cs:929-947 | the loop over option lines builds the dictionary RecoverOptions describes |
| AiReply.TryRecoverFromOcr | CaptureRegionApp/Processing/CapturePipeline.cs:867-961 | the method computes RecoveryOf(ocrText, aiResponse) |
| AiReply.HeadIsLone | CaptureRegionApp/Processing/CapturePipeline.cs:875-884 | a reply whose trimmed text matches `^([A-D])[.)]?\s+` has a lone letter where the trimmed text starts |
| AiReply.RecoveredAnswerLone | CaptureRegionApp/Processing/CapturePipeline.cs:881-889 | the second answer pattern never supplies the answer; the result is always the first lone letter or "" |
| AiReply.RecoverOptionsKeys | CaptureRegionApp/Processing/CapturePipeline.cs:929-947 | recovered option keys lie in A-D, are distinct ignoring case, and are non-empty when there is an option line |
| AiReply.RecoveredOptionsShape | CaptureRegionApp/Processing/CapturePipeline.cs:896-952 | recovered options are non-empty with keys in A-D; the early return for a blank question with no options never fires |
| ContentArea.Step | CaptureRegionApp/Processing/CapturePipeline.cs:1111-1112 | the sampling step Math.Max(1, width / 32) is at least 1 |
| ContentArea.DarkFrom | CaptureRegionApp/Processing/CapturePipeline.cs:1116-1123 | the dark count of a row is at most the number of sampled columns |
| ContentArea.SampleBounds | CaptureRegionApp/Processing/CapturePipeline.cs:1111-1124 | a row has samples exactly when the image has a column, and at least 32 once it is 32 columns wide |
| ContentArea.TopFrom | CaptureRegionApp/Processing/CapturePipeline.cs:1129-1133 | the top loop stops at the first row that is not dark, never past the last row, and every row it skipped is dark |
| ContentArea.BottomFrom | CaptureRegionApp/Processing/CapturePipeline.cs:1135-1139 | the bottom loop stops at the last row that is not dark, never above top, and every row it skipped is dark |
| ContentArea.IsRowMostlyBlack | CaptureRegionApp/Processing/CapturePipeline.cs:1109-1127 | the loop over the sampled columns decides DarkRow: some column is sampled and at least 90% of the samples have brightness below 20 |
| ContentArea.SkipDarkTop | CaptureRegionApp/Processing/CapturePipeline.cs:1129-1133 | the top loop computes TopFrom from row 0 |
| ContentArea.SkipDarkBottom | CaptureRegionApp/Processing/CapturePipeline.cs:1135-1139 | the bottom loop computes BottomFrom from the last row |
| ContentArea.DetectVerticalContentArea | CaptureRegionApp/Processing/CapturePipeline.cs:1104-1149 | the method returns Area(bmp) |
| ContentArea.AreaShape | CaptureRegionApp/Processing/CapturePipeline.cs:1104-1149 | the area spans the full width inside the image; when it is not the whole image, every row above and below it is dark, its first and last rows are not, and it is taller than a tenth of the height plus one |
| ContentArea.WholeImageWhenMostlyDark | CaptureRegionApp/Processing/CapturePipeline.cs:1141-1148 | the whole image comes back exactly when bottom <= top + height / 10, or when no row was cut off |
| Pipeline.SuffixesDistinct | CaptureRegionApp/Processing/CapturePipeline.cs:1505-1506 | one file name with two suffixes that end differently gives two different paths (also the marker path at line 143) |
| Pipeline.NamesDistinct | CaptureRegionApp/Processing/CapturePipeline.cs:1505-1506 | two different file names with one non-empty suffix give two different paths (also the marker path at line 143) |
| Pipeline.ArtifactPathsDistinct | CaptureRegionApp/Processing/CapturePipeline.cs:1505-1523 | an image's ".processed" marker and its "_result.json" file are different, and images with different names never share either (also the marker path at line 143) |
| Pipeline.OcrRounds | CaptureRegionApp/Processing/CapturePipeline.cs:181-230 | the OCR loop makes one to three attempts, its text is the last attempt's (the sample text when the engine threw), and it stops early only at a text that passes the structure test |
| Pipeline.VisionOnlyWhenUnlikely | CaptureRegionApp/Processing/CapturePipeline.cs:219-256 | the cloud OCR replaces the text only when the fallback exists, the text failed the structure test and the cloud reply is non-blank; the confidence flag always matches the final text |
| Pipeline.MockFallbackAccepted | CaptureRegionApp/Processing/CapturePipeline.cs:190-262 | when the OCR engine throws at the first attempt the sample text is used, the loop stops at once and the item is queued with full confidence |
| Pipeline.ComposeShape | CaptureRegionApp/Processing/CapturePipeline.cs:353-364 | a prompt starts with its base, ends with the hint from the second attempt on, and is the OCR alone when the base is the OCR on the first attempt |
| Pipeline.PromptShape | CaptureRegionApp/Processing/CapturePipeline.cs:345-364 | every prompt starts with the question block (or the OCR when the block is blank) and carries the retry hint at its end from attempt two on |
| Pipeline.FillMeta | CaptureRegionApp/Processing/CapturePipeline.cs:369-381 | filling the meta from the OCR leaves question, options, answer and answer text untouched |
| Pipeline.AiRounds | CaptureRegionApp/Processing/CapturePipeline.cs:349-442 | the AI loop makes one to three calls; a run ends with a failed call or with the record of the last reply, and that record passes the acceptance test whenever the loop stopped before the third call; every earlier attempt was rejected |
| Pipeline.FinalizeShape | CaptureRegionApp/Processing/CapturePipeline.cs:444-459 | a finalized record has a question that covers the OCR, or is cleared to its OCR and meta; it is unchanged exactly when one of these already holds, and file name, path, meta, raw answer and OCR are kept |
| Pipeline.ClearedResultsCollide | CaptureRegionApp/Processing/CapturePipeline.cs:452-459 | every cleared record has the content key "\|", so any two cleared records collide (also the content key of lines 1345-1370) |
| Pipeline.FindNearDuplicate | CaptureRegionApp/Processing/CapturePipeline.cs:569-576 | the loop over the OCR history finds a near duplicate exactly when NearDuplicateIn holds |
| Pipeline.NearDuplicateInExists | CaptureRegionApp/Processing/CapturePipeline.cs:564-581 | NearDuplicateIn holds iff some retained text reaches the 0.97 similarity threshold |
| Pipeline.FindKeyOnDisk | CaptureRegionApp/Processing/CapturePipeline.cs:1247-1267 | the loop over the saved results finds the content key exactly when KeyOnDisk holds |
| Pipeline.KeyOnDiskExists | CaptureRegionApp/Processing/CapturePipeline.cs:1242-1268 | KeyOnDisk holds iff some saved result has the same content key ignoring case |
| Pipeline.MetaGate | CaptureRegionApp/Processing/CapturePipeline.cs:1400-1481 | without id and number the meta test never fires; after RememberMeta it fires for the same meta, and for the same id in any letter case |
| Pipeline.ContentGate | CaptureRegionApp/Processing/CapturePipeline.cs:1234-1274 | a content key recorded in the ledger makes every key equal to it ignoring case a duplicate |
| Pipeline.ImageStageOutcomes | CaptureRegionApp/Processing/CapturePipeline.cs:155-262 | stage one starts exactly when auto-answer is on and the path is unmarked, queues exactly when the hash is also new; a started image is marked with its hash recorded, and a duplicate image loses its file and its marker |
| Pipeline.ImageStageOnce | CaptureRegionApp/Processing/CapturePipeline.cs:121-162 | a path that stage one has taken up is never started again, whatever its hash |
| Pipeline.QueuedShape | CaptureRegionApp/Processing/CapturePipeline.cs:177-262 | the queued item has the image's path and file name and a confidence flag that matches its text; one to three OCR calls were made, and the item, its marker and its OCR file exist |
| Pipeline.ImageStageLedgers | CaptureRegionApp/Processing/CapturePipeline.cs:155-262 | stage one only adds to its ledgers and queue and leaves stage two's ledgers untouched |
| Pipeline.JsonStageWithOutcomes | CaptureRegionApp/Processing/CapturePipeline.cs:289-535 | no AI call exactly when the item is dropped as a duplicate or saved without AI, which happens only without enough options; only a failed call unmarks the image and removes its marker |
| Pipeline.DedupOutcome | CaptureRegionApp/Processing/CapturePipeline.cs:293-318 | the duplicate checks end only in a near-duplicate or known-meta drop, or let the item through |
| Pipeline.AfterAiOutcomes | CaptureRegionApp/Processing/CapturePipeline.cs:444-534 | after the AI loop every call is counted; the outcome is a failure exactly when no attempt produced a record, a duplicate-content drop or a save otherwise |
| Pipeline.DedupLedgers | CaptureRegionApp/Processing/CapturePipeline.cs:293-318 | the duplicate checks touch only the history and meta ledgers: a confident text that is not a near duplicate joins the history, and a kept item's id and number are remembered (also IsDuplicateOcrText at lines 564-581) |
| Pipeline.JsonStageWithLedgers | CaptureRegionApp/Processing/CapturePipeline.cs:289-535 | stage two leaves the image ledger and the queues alone and only adds to the other ledgers |
| Pipeline.JsonStageCalls | CaptureRegionApp/Processing/CapturePipeline.cs:349-366 | stage two makes at most three AI calls, none exactly for the duplicate and no-options paths, and a failure ends with a call that threw (also the catch at lines 512-534) |
| Pipeline.SavedShape | CaptureRegionApp/Processing/CapturePipeline.cs:444-510 | a saved answer covers the OCR or is cleared, is filed under the image's name, its content key is remembered and its result file exists; a duplicate answer removes the image, its result and its marker (also SaveResultToJson at lines 1498-1527) |
| Pipeline.NearDuplicateDropped | CaptureRegionApp/Processing/CapturePipeline.cs:293-303 | a confident text that is a near duplicate of a retained text is dropped with its image, marker and OCR file and nothing else changes |
| Pipeline.LaterNearDuplicateDropped | CaptureRegionApp/Processing/CapturePipeline.cs:293-303 | once a confident text has passed the first check, a later confident near duplicate of it is dropped (also the history append at line 578) |
| Pipeline.KeptInHistory | CaptureRegionApp/Processing/CapturePipeline.cs:564-581 | a confident text that is not a near duplicate is appended to the history (also the call at line 294) |
| Pipeline.KnownMetaDropped | CaptureRegionApp/Processing/CapturePipeline.cs:305-316 | an item whose id or number is known is dropped with its files before any AI call |
| Pipeline.LaterSameIdDropped | CaptureRegionApp/Processing/CapturePipeline.cs:305-318 | once an item with an id passed the checks, a later item with that id in any case is dropped |
| Pipeline.KeptRemembersMeta | CaptureRegionApp/Processing/CapturePipeline.cs:317-318 | an item that passes the duplicate checks leaves its id and number remembered |
| Pipeline.SameIdKnown | CaptureRegionApp/Processing/CapturePipeline.cs:1411-1440 | a known id makes the meta known whatever the number |
| Pipeline.ClearedSavedOnce | CaptureRegionApp/Processing/CapturePipeline.cs:452-507 | after one cleared answer is saved in a session no later cleared answer is saved |
| Pipeline.SavedByAi | CaptureRegionApp/Processing/CapturePipeline.cs:404-510 | a saved answer comes from an AI record, finalized and stored under the image; its key was new and is remembered, and its result file exists |
| Pipeline.RetryAfterFailureIsDuplicate | CaptureRegionApp/Processing/CapturePipeline.cs:512-520 | after stage two fails the image is unmarked, yet when it is submitted again stage one drops it as a duplicate image (also stage one at lines 165-175 and the hash ledger at line 1299) |
| Pipeline.CompleteReply | CaptureRegionApp/Processing/CapturePipeline.cs:368-402 | parsing a reply, filling the meta and recovering from the OCR compute MergedReply |
| Pipeline.BuildAttempt | CaptureRegionApp/Processing/CapturePipeline.cs:366-417 | the record of one attempt is the one Builder describes |
| Pipeline.RunAi | CaptureRegionApp/Processing/CapturePipeline.cs:349-442 | the retry loop computes AiRounds from the first attempt |
| Pipeline.CapturePipeline.constructor | CaptureRegionApp/Processing/CapturePipeline.cs:20-62 | the cloud fallback exists iff a Vision key is set and OcrProvider is not "googlevision" ignoring case; queues, history and ledgers start empty |
| Pipeline.MainOcrEngine | CaptureRegionApp/Processing/CapturePipeline.cs:1625-1638 | the provider selects Vision iff, trimmed and lower-cased, it is "googlevision", "vision" or "gcv", and PaddleOCR iff it is "paddle"; every other name selects the command-line engine |
| Pipeline.VisionAliasKeepsFallback | CaptureRegionApp/Processing/CapturePipeline.cs:50-56 | the providers "gcv" and " googlevision" make Vision the main engine and still pass the test that switches the Vision fallback off only for "googlevision" |
| Pipeline.CapturePipeline.EnqueueImage | CaptureRegionApp/Processing/CapturePipeline.cs:70-79 | a blank path is ignored, any other path is appended to the image queue |
| Pipeline.CapturePipeline.TryMarkProcessing | CaptureRegionApp/Processing/CapturePipeline.cs:121-153 | true exactly when auto-answer is on and the path is unmarked; then the path is marked and its marker written, otherwise nothing changes |
| Pipeline.CapturePipeline.IsDuplicateImage | CaptureRegionApp/Processing/CapturePipeline.cs:1284-1307 | a hash seen before ignoring case is a duplicate, a new hash is recorded, an unreadable image is no duplicate |
| Pipeline.CapturePipeline.IsDuplicateOcrText | CaptureRegionApp/Processing/CapturePipeline.cs:564-581 | a near duplicate of a retained text is reported and not retained; any other text is appended to the history |
| Pipeline.CapturePipeline.IsDuplicateByMeta | CaptureRegionApp/Processing/CapturePipeline.cs:1400-1461 | the result is MetaKnown over the remembered ids and numbers and the readable saved results |
| Pipeline.CapturePipeline.RememberMeta | CaptureRegionApp/Processing/CapturePipeline.cs:1463-1481 | a non-blank id and a non-blank number are added to their ledgers, nothing else |
| Pipeline.CapturePipeline.IsDuplicateByContent | CaptureRegionApp/Processing/CapturePipeline.cs:1226-1281 | a key known in the session or on disk is a duplicate; a new key is recorded |
| Pipeline.CapturePipeline.RunOcr | CaptureRegionApp/Processing/CapturePipeline.cs:181-230 | the OCR loop computes OcrFrom |
| Pipeline.CapturePipeline.HandleImageStage | CaptureRegionApp/Processing/CapturePipeline.cs:155-287 | the outcome, OCR call count and new state are those of ImageStage |
| Pipeline.CapturePipeline.BeginImage | CaptureRegionApp/Processing/CapturePipeline.cs:157-175 | the opening stops with the outcome StartImage gives, or goes on with the marked state |
| Pipeline.CapturePipeline.QueueImage | CaptureRegionApp/Processing/CapturePipeline.cs:177-262 | the queued item and the new state are those QueueStage describes |
| Pipeline.CapturePipeline.ReadImage | CaptureRegionApp/Processing/CapturePipeline.cs:177-259 | the OCR with the cloud fallback yields QueuedItem after OcrFrom's attempts |
| Pipeline.CapturePipeline.CheckDuplicates | CaptureRegionApp/Processing/CapturePipeline.cs:293-318 | the checks compute DedupStage, outcome and state |
| Pipeline.CapturePipeline.SaveAnswer | CaptureRegionApp/Processing/CapturePipeline.cs:444-534 | the end of stage two computes AfterAi |
| Pipeline.CapturePipeline.StoreResult | CaptureRegionApp/Processing/CapturePipeline.cs:489-510 | a known key drops the image, its result and its marker; a new key is remembered and the stored record is saved with its result and marker files (also SaveResultToJson at lines 1498-1565) |
| Pipeline.CapturePipeline.HandleJsonStage | CaptureRegionApp/Processing/CapturePipeline.cs:289-535 | the outcome, AI call count and new state are those of JsonStage |
| Paths.FileName | CaptureRegionApp/Processing/CapturePipeline.cs:1512 | Path.GetFileName is a suffix of the path with no '\\' or '/' in it (also line 259) |
| Paths.FileNameCut | CaptureRegionApp/Processing/CapturePipeline.cs:1512 | GetFileName cuts right after the last separator, right after a drive such as "C:", or at the start of a path with neither, and never inside the drive, so a ':' later in the name stays in it (also line 259) |
| Paths.FileNameWithoutExtension | CaptureRegionApp/Processing/CapturePipeline.cs:1505 | Path.GetFileNameWithoutExtension is a prefix of the file name with no separator in it (also line 143) |
| Paths.ExtensionCut | CaptureRegionApp/Processing/CapturePipeline.cs:1505 | GetFileNameWithoutExtension cuts the file name before its last '.', and keeps the whole name when it has no '.' (also line 143) |
| Paths.Combine | CaptureRegionApp/Processing/CapturePipeline.cs:1506 | Path.Combine always ends with the name (also line 143) |
| Paths.CombineShape | CaptureRegionApp/Processing/CapturePipeline.cs:1506 | for a relative name Path.Combine starts with the directory, and when both are non-empty exactly one separator stands right before the name, inserted only when the directory does not already end in one; a rooted or empty name gives the name or the directory (also line 143) |
| Paths.FileNameOfCombine | CaptureRegionApp/Processing/CapturePipeline.cs:1506 | a non-empty relative name without separators placed in a directory is the file name of the combined path (also line 259) |
| Paths.CombineInjective | CaptureRegionApp/Processing/CapturePipeline.cs:1506 | two non-empty relative names without separators that give the same combined path are equal (also line 143) |
| Paths.CombineDistinct | CaptureRegionApp/Processing/CapturePipeline.cs:1506 | different non-empty names without separators, drive-rooted or not, give different paths in one directory (also line 143) |
| Paths.RootedBesideRelative | CaptureRegionApp/Processing/CapturePipeline.cs:1506 | a drive-rooted name without separators never equals a non-empty relative name combined with a directory |
| Paths.RelativeCombineDistinct | CaptureRegionApp/Processing/CapturePipeline.cs:1506 | different relative names stay different once combined with the same directory (also line 143) |
| OptionMaps.IndexOfKey | CaptureRegionApp/Processing/CapturePipeline.cs:845 | the first entry whose key matches under the dictionary's comparer, and None exactly when no key matches (also line 946) |
| OptionMaps.Set | CaptureRegionApp/Processing/CapturePipeline.cs:845 | the indexer overwrites the value of a matching entry in place, or appends a new entry at the end (also lines 776 and 946) |
| OptionMaps.Lookup | CaptureRegionApp/Processing/CapturePipeline.cs:955 | TryGetValue succeeds exactly when some key matches |
| OptionMaps.SetThenLookup | CaptureRegionApp/Processing/CapturePipeline.cs:845 | after setting a key the keys stay distinct, the key reads back the value set, and the count grows only for a new key (also line 946) |
| OptionMaps.SetOtherKey | CaptureRegionApp/Processing/CapturePipeline.cs:845 | setting one key leaves what every other key reads unchanged (also line 946) |
| OptionMaps.SortBy | CaptureRegionApp/Processing/CapturePipeline.cs:1354 | OrderBy with the case-insensitive comparer returns a sorted permutation of its input |
| OptionMaps.SortedUnique | CaptureRegionApp/Processing/CapturePipeline.cs:1354 | two sorted sequences with the same elements and case-insensitively distinct keys are equal |
| OptionMaps.SortByStable | CaptureRegionApp/Processing/CapturePipeline.cs:1354 | OrderBy is stable: the elements whose keys are equal ignoring case appear in the result in their input order |
| OptionMaps.InsertKeepsOrder | CaptureRegionApp/Processing/CapturePipeline.cs:1354 | one insertion step of the sort places the new element in front of every element with the same folded key |
| OptionMaps.SortByIgnoresOrder | CaptureRegionApp/Processing/CapturePipeline.cs:1354 | ordering forgets the insertion order when no two keys are equal ignoring case |
| OptionMaps.DistinctKeysFolded | CaptureRegionApp/Processing/CapturePipeline.cs:842 | keys that are distinct under the case-insensitive comparer stay distinct after case folding (also line 929) |
| OptionMaps.LookupLast | CaptureRegionApp/Processing/CapturePipeline.cs:776 | a key added at the end of a dictionary without it reads back its value |
| OptionMaps.Values | CaptureRegionApp/Processing/CapturePipeline.cs:991 | Values has one value per entry, in enumeration order |
| OptionMaps.ToMap | CaptureRegionApp/Processing/CapturePipeline.cs:1354 | the dictionary as a map has exactly the dictionary's keys |
| Text.Lower | CaptureRegionApp/Processing/CapturePipeline.cs:586 | ToLowerInvariant maps each character and keeps the length |
| Text.Upper | CaptureRegionApp/Processing/CapturePipeline.cs:21-25 | ToUpperInvariant maps each character and keeps the length; it is the folding the case-insensitive hash sets apply |
| Text.UpperIdempotent | CaptureRegionApp/Processing/CapturePipeline.cs:21-25 | folding a folded key changes nothing |
| Text.FoldAgree | CaptureRegionApp/Processing/CapturePipeline.cs:21-25 | two characters are equal upper-cased exactly when they are equal lower-cased |
| Text.TrimSpec | CaptureRegionApp/Processing/CapturePipeline.cs:585 | Trim returns the slice between the leading and the trailing white space, with no white space at either end |
| Text.TrimBlank | CaptureRegionApp/Processing/CapturePipeline.cs:592 | a text is blank exactly when its trim is empty |
| Text.TrimIdempotent | CaptureRegionApp/Processing/CapturePipeline.cs:585 | trimming twice is trimming once |
| Text.SplitNoSep | CaptureRegionApp/Processing/CapturePipeline.cs:802-804 | a text without separators splits into itself alone |
| Text.SplitPiecesNoSep | CaptureRegionApp/Processing/CapturePipeline.cs:802-804 | no piece of a split holds a separator |
| Text.ReplaceIsJoin | CaptureRegionApp/Processing/CapturePipeline.cs:1366-1367 | Replace is joining the pieces between occurrences with the replacement |
| Text.SplitStrJoin | CaptureRegionApp/Processing/CapturePipeline.cs:1366-1367 | joining the pieces with the pattern gives the text back |
| Text.ReplaceAbsent | CaptureRegionApp/Processing/CapturePipeline.cs:1366-1367 | a text without the pattern is left alone |
| Text.LinesOfJoin | CaptureRegionApp/Processing/CapturePipeline.cs:612-717 | joining non-empty single-line texts with line breaks and splitting again gives them back |
| Text.CollapseWhite | CaptureRegionApp/Processing/CapturePipeline.cs:585 | Regex.Replace(s, "\\s+", " ") is empty only for an empty input, holds no line break, and every white character left is a space |
| Text.NatToString | CaptureRegionApp/Processing/Ocr/MockOcrService.cs:25-30 | n.ToString() is one or more decimal digits without a leading zero |
| Text.NatToStringLength | CaptureRegionApp/Processing/CapturePipeline.cs:1391 | a number prints with three or more digits exactly when it is at least 100 |
| Text.PadZeros | CaptureRegionApp/Processing/Video/VideoFrameExtractor.cs:89 | the format "000000" gives at least six digits whose value is the number |
| Text.ToUpperChar | CaptureRegionApp/Processing/CapturePipeline.cs:843 | char.ToUpperInvariant turns a lower-case letter into an upper-case one and leaves every other character alone |
| Text.ToLowerChar | CaptureRegionApp/Processing/CapturePipeline.cs:586 | char.ToLowerInvariant turns an upper-case letter into a lower-case one and leaves every other character alone |
| Text.CaseRoundTrip | CaptureRegionApp/Processing/CapturePipeline.cs:843 | lower-casing then upper-casing an upper-case letter gives it back, and the other way round; case mapping keeps letters letters (also line 586) |
| Text.TrimChar | CaptureRegionApp/Processing/CapturePipeline.cs:825 | Trim('.') leaves no '.' at either end and never lengthens the text |
| Text.SplitOn | CaptureRegionApp/Processing/CapturePipeline.cs:802 | string.Split always yields at least one piece |
| Text.RemoveEmpty | CaptureRegionApp/Processing/CapturePipeline.cs:802 | RemoveEmptyEntries keeps no empty piece |
| Text.SplitStrPieces | CaptureRegionApp/Processing/CapturePipeline.cs:1366-1367 | no piece between the pattern's occurrences contains the pattern |
| Settings.DedupKeepsFirst | CaptureRegionApp/Processing/ProcessingSettings.cs:84-111 | the `Where(distinct.Add)` filter keeps exactly the first occurrence of every key ignoring case |
| Settings.DedupDistinct | CaptureRegionApp/Processing/ProcessingSettings.cs:84-85 | the kept keys were not in the set before and are pairwise different ignoring case |
| Settings.DedupFromInput | CaptureRegionApp/Processing/ProcessingSettings.cs:84-85 | every kept key is a key of the input |
| Settings.DedupCovers | CaptureRegionApp/Processing/ProcessingSettings.cs:84-85 | every input key is kept or was already in the set, up to case |
| Settings.TrimmedNonBlank | CaptureRegionApp/Processing/ProcessingSettings.cs:64-96 | every element of the trimmed, non-blank list is non-blank and its own trim |
| Settings.KeyCandidates | CaptureRegionApp/Processing/ProcessingSettings.cs:60-81 | every key gathered from the list, GeminiApiKey and the variable is non-blank and trimmed |
| Settings.AddTrimmed | CaptureRegionApp/Processing/ProcessingSettings.cs:62-67 | the loop over the configured list builds TrimmedNonBlank of it |
| Settings.DistinctIgnoringCase | CaptureRegionApp/Processing/ProcessingSettings.cs:84-85 | the filter computes Dedup of its input |
| Settings.GetGeminiApiKeysOrdered | CaptureRegionApp/Processing/ProcessingSettings.cs:58-86 | the keys are the first occurrences, ignoring case, of the list keys, then GeminiApiKey, then the variable |
| Settings.GetGeminiModelsOrdered | CaptureRegionApp/Processing/ProcessingSettings.cs:88-112 | the models are the first occurrences, ignoring case, of the list models, then GeminiModel, or the two fallback models when there is none |
| Settings.KeepFirstShape | CaptureRegionApp/Processing/ProcessingSettings.cs:84-85 | what is kept comes from the input, is pairwise different ignoring case, and covers every input key up to case |
| Settings.KeysShape | CaptureRegionApp/Processing/ProcessingSettings.cs:58-86 | the ordered keys are trimmed, non-blank, pairwise different ignoring case, and cover every configured key up to case |
| Settings.ModelsShape | CaptureRegionApp/Processing/ProcessingSettings.cs:88-112 | the model list is never empty, is pairwise different ignoring case, and is ["gemini-2.5-flash", "gemini-2.5-flash-lite"] when no model is configured |
| Settings.FallbackModelsKept | CaptureRegionApp/Processing/ProcessingSettings.cs:104-111 | the two fallback models differ ignoring case, so the dedup keeps both in order |
| Settings.GetGoogleVisionApiKey | CaptureRegionApp/Processing/ProcessingSettings.cs:114-131 | the trimmed explicit key when it is non-blank, else the trimmed variable when it is non-blank, else ""; the result is "" exactly when neither is present |
| Settings.BlankOutputIsDefault | CaptureRegionApp/Processing/ProcessingSettings.cs:133-138 | a blank output directory resolves to the same directory as the default "Outputs" |
| Settings.DefaultsShape | CaptureRegionApp/Processing/ProcessingSettings.cs:11-26 | the defaults turn auto-answer on, choose Tesseract and order the models as ["gemini-2.5-flash"] |
| Settings.SingleModel | CaptureRegionApp/Processing/ProcessingSettings.cs:88-112 | one trimmed model and no list give that model alone |
| CaptureApp.Parse | CaptureRegionApp/Program.cs:469-497 | the tokenizing loop computes ParseHotkey: the modifier and key the tokens describe |
| CaptureApp.ReadToken | CaptureRegionApp/Program.cs:481-494 | one token ORs in its modifier bit, or replaces the key when it names one, and does nothing otherwise |
| CaptureApp.ModifierNamesDiffer | CaptureRegionApp/Program.cs:461-467 | no token names two of CTRL, ALT, SHIFT and WIN ignoring case |
| CaptureApp.FoldMask | CaptureRegionApp/Program.cs:478-486 | the loop's modifier bits are the OR of the bits of the modifier names that occur among the tokens |
| CaptureApp.FlagMaskBound | CaptureRegionApp/Program.cs:461-485 | the modifier bits never exceed 0xF |
| CaptureApp.ParseModifiers | CaptureRegionApp/Program.cs:469-497 | the parsed modifiers are never 0 nor above 0xF: the bits of the named modifiers, or CTRL (0x0002) alone when none is named |
| CaptureApp.MaskIgnoresOrder | CaptureRegionApp/Program.cs:481-486 | two token lists naming the same tokens in any order, any number of times, give the same modifier bits |
| CaptureApp.FlagMaskSame | CaptureRegionApp/Program.cs:481-486 | the OR of the named bits depends only on which tokens occur |
| CaptureApp.LastKeyToken | CaptureRegionApp/Program.cs:487-492 | the last token that is no modifier and parses as a key name, or none exists |
| CaptureApp.FoldKey | CaptureRegionApp/Program.cs:479-492 | the parsed key is that of the last key token, or Keys.Q when there is none |
| CaptureApp.ParseBlank | CaptureRegionApp/Program.cs:471-475 | a blank hotkey text is CTRL+Q |
| CaptureApp.GetRectShape | CaptureRegionApp/Program.cs:112-119 | the rectangle has non-negative width and height, its top-left corner is the component-wise minimum and its bottom-right the maximum of the two points, in either order |
| CaptureApp.CaptureForm.constructor | CaptureRegionApp/Program.cs:45-63 | a new overlay is not selecting, not closed and has captured nothing |
| CaptureApp.CaptureForm.KeyDown | CaptureRegionApp/Program.cs:65-71 | Escape closes the overlay, any other key changes nothing |
| CaptureApp.CaptureForm.MouseDown | CaptureRegionApp/Program.cs:73-79 | selection starts at the pressed point with an empty rectangle |
| CaptureApp.CaptureForm.MouseMove | CaptureRegionApp/Program.cs:81-88 | while selecting the selection is the rectangle spanned by the start and the current point; otherwise nothing changes |
| CaptureApp.CaptureForm.MouseUp | CaptureRegionApp/Program.cs:90-100 | selection ends at the rectangle spanned by the start and release points, which is captured only when wider and taller than 2 pixels; the overlay closes either way |
| CaptureApp.CloneSettingsShape | CaptureRegionApp/Program.cs:308-328 | the copy differs from the settings only in the fixed region, which reads back as the rectangle; copying a settings' own region gives it back |
| CaptureApp.CaptureSavesShape | CaptureRegionApp/Program.cs:187-211 | the capture loop saves at most one image: that of the first round not asking for a retry, when that round captured an image and its preview said OK |
| CaptureApp.CaptureAppContext.constructor | CaptureRegionApp/Program.cs:140-146 | a new context is not capturing and has saved and written nothing |
| CaptureApp.CaptureAppContext.TriggerCapture | CaptureRegionApp/Program.cs:177-217 | nothing happens while a command runs; otherwise the capture loop's saves are added and the flag is cleared on the way out |
| CaptureApp.CaptureAppContext.Press | CaptureRegionApp/Program.cs:179-182 | commands pressed while a command runs change nothing (also lines 221-224 and 271-274) |
| CaptureApp.CaptureAppContext.TriggerFixedCapture | CaptureRegionApp/Program.cs:219-256 | nothing while a command runs; a fixed region without area is refused; otherwise its image is saved, after the preview's OK when there is a preview; the flag is cleared on every way out |
| CaptureApp.CaptureAppContext.ConfigureFixedRegionAndRestart | CaptureRegionApp/Program.cs:269-306 | nothing while a command runs; a cancelled or empty selection changes nothing; otherwise the settings are written with the selection as fixed region and a restart is asked for; the flag is cleared on every way out |
| Watcher.TickSubmitsShape | CaptureRegionApp/Processing/PendingWatcher.cs:58-81 | one tick hands the pipeline exactly the listed pending files that are not yet in flight, each at most once, and nothing else |
| Watcher.SkippedNeverSubmitted | CaptureRegionApp/Processing/PendingWatcher.cs:60-74 | a `_ocrprep.png` file (in any letter case), or a file whose `_result.json` or `.processed` marker exists, is never handed to the pipeline |
| Watcher.PendingWatcher.constructor | CaptureRegionApp/Processing/PendingWatcher.cs:23-29 | the folders are kept, the interval defaults to five seconds when none is given, nothing is in flight and the timer is not yet running |
| Watcher.PendingWatcher.Start | CaptureRegionApp/Processing/PendingWatcher.cs:31-36 | the timer runs; the in-flight set and what was handed over are unchanged |
| Watcher.PendingWatcher.Tick | CaptureRegionApp/Processing/PendingWatcher.cs:38-82 | after Dispose or when the folder cannot be listed nothing changes; otherwise the paths handed over grow by exactly the tick's submissions and each path is handed over at most once over the watcher's life |
| Watcher.PendingWatcher.VisitAll | CaptureRegionApp/Processing/PendingWatcher.cs:58-81 | the loop over the listing appends exactly the tick's submissions, keeping the in-flight set equal to the set of paths handed over |
| Watcher.PendingWatcher.Visit | CaptureRegionApp/Processing/PendingWatcher.cs:60-80 | one file is handed over iff it is pending and not yet in flight, and only then joins the in-flight set |
| Watcher.PendingWatcher.TryAdd | CaptureRegionApp/Processing/PendingWatcher.cs:76 | reports true iff the path was not in the set, and the path is in the set afterwards |
| Watcher.PendingWatcher.Dispose | CaptureRegionApp/Processing/PendingWatcher.cs:84-89 | the watcher is disposed; the first call stops the timer, later calls change nothing |
| VideoFrames.NewExtractorConfig | CaptureRegionApp/Processing/Video/VideoFrameExtractor.cs:22-34 | construction succeeds exactly when 1 <= intervalSeconds <= 20, and fails with the range error otherwise; a blank ffmpeg path becomes "ffmpeg" and every other argument is kept |
| VideoFrames.FrameNamesDistinct | CaptureRegionApp/Processing/Video/VideoFrameExtractor.cs:89 | two different counters give two different frame names under one timestamp |
| VideoFrames.FramePathsDistinct | CaptureRegionApp/Processing/Video/VideoFrameExtractor.cs:89-90 | two different counters give two different destinations in the output folder |
| VideoFrames.MovesToShape | CaptureRegionApp/Processing/Video/VideoFrameExtractor.cs:89-92 | the k-th kept frame goes to the k-th destination, and no two kept frames share one |
| VideoFrames.RenamesShape | CaptureRegionApp/Processing/Video/VideoFrameExtractor.cs:76-93 | the moved frames keep their order, are named with consecutive counters from 1 without gaps, and never share a name |
| VideoFrames.RenamesSnoc | CaptureRegionApp/Processing/Video/VideoFrameExtractor.cs:89-92 | one more kept frame adds exactly one move, to the next counter |
| VideoFrames.SweepShape | CaptureRegionApp/Processing/Video/VideoFrameExtractor.cs:78-120 | every frame is moved or deleted; moved frames have hashes new to the extractor and to each other, deleted ones a hash that was known; the extractor then knows the moved frames' hashes; a frame that cannot be hashed is moved |
| VideoFrames.SweepPartition | CaptureRegionApp/Processing/Video/VideoFrameExtractor.cs:83-120 | moved and deleted frames together are the listed frames, and an unhashable frame is moved |
| VideoFrames.SweepLast | CaptureRegionApp/Processing/Video/VideoFrameExtractor.cs:83-92 | the last frame is appended either to the moved or to the deleted frames, and to the moved ones when it cannot be hashed |
| VideoFrames.SweepCounts | CaptureRegionApp/Processing/Video/VideoFrameExtractor.cs:79-93 | the moved and the deleted frames are a split of the frames |
| VideoFrames.SweepKeepsUnhashed | CaptureRegionApp/Processing/Video/VideoFrameExtractor.cs:117-120 | a hashing error means the frame is moved |
| VideoFrames.SweepHashes | CaptureRegionApp/Processing/Video/VideoFrameExtractor.cs:110-115 | the hash set ends as the old hashes plus the moved frames' hashes, so it persists across calls (also the field at line 20) |
| VideoFrames.SweepDecisions | CaptureRegionApp/Processing/Video/VideoFrameExtractor.cs:83-115 | moved frames' hashes are new and pairwise distinct ignoring case; deleted frames' hashes were known before or to an earlier moved frame |
| VideoFrames.FrameOrder | CaptureRegionApp/Processing/Video/VideoFrameExtractor.cs:78 | the frames are a permutation of the listing sorted by name ignoring case |
| VideoFrames.VideoFrameExtractor.constructor | CaptureRegionApp/Processing/Video/VideoFrameExtractor.cs:20-34 | a new extractor keeps its configuration and knows no hashes |
| VideoFrames.VideoFrameExtractor.IsDuplicate | CaptureRegionApp/Processing/Video/VideoFrameExtractor.cs:102-121 | a known hash is a duplicate; a new one is remembered; a hashing error is not a duplicate |
| VideoFrames.VideoFrameExtractor.Extract | CaptureRegionApp/Processing/Video/VideoFrameExtractor.cs:36-100 | a missing video or a failing ffmpeg is an error with nothing moved and the hashes unchanged; otherwise the ordered frames are swept, duplicates deleted, the rest moved under consecutive names, and the count moved is returned |
| VideoFrames.VideoFrameExtractor.MoveFrames | CaptureRegionApp/Processing/Video/VideoFrameExtractor.cs:76-93 | the foreach over the ordered frames performs the sweep's moves and deletes and updates the hashes to the sweep's |
| MockOcr.Rem | CaptureRegionApp/Processing/Ocr/MockOcrService.cs:24-25 | C#'s remainder lies strictly between -b and b |
| MockOcr.MockNumbersInRange | CaptureRegionApp/Processing/Ocr/MockOcrService.cs:23-25 | for every hash the question number lies in 1..50 and the id in 0..99999 |
| MockOcr.MockDependsOnFileNameOnly | CaptureRegionApp/Processing/Ocr/MockOcrService.cs:16-41 | two paths with the same file name give the same text |
| MockOcr.MockShape | CaptureRegionApp/Processing/Ocr/MockOcrService.cs:27-38 | the text is the number line "Multiple choices {n}/50", the id line "[{id}]", then the fixed lines |
| MockOcr.MockPassesGates | CaptureRegionApp/Processing/Ocr/MockOcrService.cs:27-38 | the sample text passes both the multiple-choice gate and the question-likeness test |
| MockOcr.MockMeta | CaptureRegionApp/Processing/Ocr/MockOcrService.cs:27-28 | ExtractQuestionMeta reads the number "{n}/50" back, and the id "[{id}]" exactly when the id has three or more digits; a shorter id gives none unless the file name holds a '[' |
| MockOcr.GatesOfLines | CaptureRegionApp/Processing/Ocr/MockOcrService.cs:27-38 | a text shaped like the sample, with two option lines in a row, passes both gates |
| MockOcr.NumberAfterPrefix | CaptureRegionApp/Processing/Ocr/MockOcrService.cs:27 | the first number match of the sample is the "{n}/50" after the digit-free prefix |
| MockOcr.IdAfterPrefix | CaptureRegionApp/Processing/Ocr/MockOcrService.cs:28 | the id pattern matches "[{id}]" at the first '[' when it has three or more digits, and nowhere when it is shorter and no '[' follows |
| MockOcr.MetaOfHeader | CaptureRegionApp/Processing/Ocr/MockOcrService.cs:27-28 | a number line and an id line followed by a tail give that number, and that id when it is long enough |
| CommandLineOcr.CommandTemplateShape | CaptureRegionApp/Processing/Ocr/CommandLineOcrService.cs:24-41 | a blank template becomes `tesseract "{input}" stdout`; the template is kept unless it contains "tesseract " and no backslash and a tesseract was found |
| CommandLineOcr.CommandTemplateIdempotent | CaptureRegionApp/Processing/Ocr/CommandLineOcrService.cs:31-39 | rewriting an already rewritten template changes nothing once the tesseract path holds a backslash |
| CommandLineOcr.ReplaceKeepsChar | CaptureRegionApp/Processing/Ocr/CommandLineOcrService.cs:38 | a replacement that happens brings the replacement's characters into the template |
| CommandLineOcr.CommandLineShape | CaptureRegionApp/Processing/Ocr/CommandLineOcrService.cs:50 | every "{input}" is replaced by the image path: the command is the template's token-free pieces joined with the path |
| CommandLineOcr.EscapeRoundTrip | CaptureRegionApp/Processing/Ocr/CommandLineOcrService.cs:172-177 | replacing the escaped quote by a plain quote undoes the escaping |
| CommandLineOcr.EscapePreceded | CaptureRegionApp/Processing/Ocr/CommandLineOcrService.cs:177 | after escaping with a backslash every quote follows a backslash |
| CommandLineOcr.BuildProcessStartShape | CaptureRegionApp/Processing/Ocr/CommandLineOcrService.cs:162-191 | on Windows cmd.exe gets `/C "` + the command with doubled quotes + `"`, and undoubling recovers it; elsewhere /bin/sh gets `-c "` + the command with backslash-escaped quotes + `"`, and unescaping recovers it |
| CommandLineOcr.QuoteFrom | CaptureRegionApp/Processing/Ocr/CommandLineOcrService.cs:60 | the end of a `[^"]+` run: the first quote from i on, or the end |
| CommandLineOcr.WhiteRun | CaptureRegionApp/Processing/Ocr/CommandLineOcrService.cs:60 | the maximal white-space run a `\s+` consumes |
| CommandLineOcr.ArgsTailMatchesIff | CaptureRegionApp/Processing/Ocr/CommandLineOcrService.cs:60 | the greedy reading of `\s+(.+)$` succeeds exactly when the pattern matches |
| CommandLineOcr.SecondPatternSubsumed | CaptureRegionApp/Processing/Ocr/CommandLineOcrService.cs:60-82 | any command the pattern at line 82 matches is matched by the one at line 60, so lines 83-101 never run |
| CommandLineOcr.DirectStart | CaptureRegionApp/Processing/Ocr/CommandLineOcrService.cs:55-78 | a command `"exe" "image" args` that contains the tesseract path starts exe directly with the quoted image and the trimmed arguments |
| CommandLineOcr.TwoQuotedOf | CaptureRegionApp/Processing/Ocr/CommandLineOcrService.cs:60 | the two quoted groups of `"exe" "image"...` are read back as exe and image |
| CommandLineOcr.ArgsAfterSpace | CaptureRegionApp/Processing/Ocr/CommandLineOcrService.cs:60-65 | one space then single-line arguments without leading white space is a match whose third group is the arguments |
| CommandLineOcr.ExtractTextShape | CaptureRegionApp/Processing/Ocr/CommandLineOcrService.cs:43-160 | a missing image throws before any process is built; otherwise the command's start info is used, a zero exit returns the trimmed standard output, and any other exit fails with the error output or the fixed message, never empty |
| ControlPanel.TrimForViewShape | CaptureRegionApp/ControlPanelForm.cs:1244-1249 | a shown text is empty exactly when the text is blank, is the text itself when it fits, and otherwise is its first max characters followed by "..." |
| ControlPanel.MetaParts | CaptureRegionApp/ControlPanelForm.cs:1253-1255 | every part put into the meta column is non-blank and already trimmed |
| ControlPanel.BuildMetaShape | CaptureRegionApp/ControlPanelForm.cs:1251-1257 | the meta column is empty iff both number and id are blank, is the one trimmed value when only one is present, and is "number id" when both are |
| ControlPanel.AddGemKeyShape | CaptureRegionApp/ControlPanelForm.cs:1211-1229 | a blank key leaves both boxes unchanged; a key already listed, ignoring case, leaves the key list unchanged; any other key becomes the last key line after the existing ones; the input box is cleared whenever the key is not blank |
| ControlPanel.AppendedKeyLines | CaptureRegionApp/ControlPanelForm.cs:1216-1224 | a key joined after the existing key lines is split back as those lines followed by the key |
| ControlPanel.OptionLines | CaptureRegionApp/ControlPanelForm.cs:1280-1281 | one "Key. Value" line per option, in the options' order |
| ControlPanel.FirstOptionLine | CaptureRegionApp/ControlPanelForm.cs:857-876 | the position where the options begin is the first trimmed line of the form "X." with X an upper-case letter, or the end when there is none |
| ControlPanel.OptionsOfLookup | CaptureRegionApp/ControlPanelForm.cs:879-892 | the options read from the option lines have distinct keys, each one upper-case letter, and each key holds the value from the last line that gives it |
| ControlPanel.OptionsOfNonEmpty | CaptureRegionApp/ControlPanelForm.cs:884-890 | one well-formed option line is enough to make the options non-empty |
| ControlPanel.ParseEditorShape | CaptureRegionApp/ControlPanelForm.cs:845-892 | Options is null iff no trimmed line starts the options; the question is the trimmed join of the lines before the first option line; when options exist they are read from the lines after it |
| ControlPanel.SplitEditorLines | CaptureRegionApp/ControlPanelForm.cs:854-876 | the loop with the foundOptions flag puts the trimmed lines before the first option line into the question and everything from it on into the options |
| ControlPanel.BuildEditorOptions | CaptureRegionApp/ControlPanelForm.cs:881-891 | the options loop produces exactly the options read from the option lines |
| ControlPanel.ReadEditor | CaptureRegionApp/ControlPanelForm.cs:845-892 | the question box is read as the question and options of the parse |
| ControlPanel.AnswerAfterEditShape | CaptureRegionApp/ControlPanelForm.cs:900-911 | the Answer either stays as it was or becomes the upper-case form of the box's first letter; it becomes X for "X." or "X " with X in A-Z, and for a one-letter box; it stays when the box is empty or does not start with a letter |
| ControlPanel.OptionLineParsed | CaptureRegionApp/ControlPanelForm.cs:1281 | the shown line of an option whose key is one upper-case letter and whose value is one trimmed line, possibly empty, is one line; it is its own trim exactly when the value is non-empty, and its trim, as the parse trims every line, starts the options and parses back to that option (an empty value comes back empty) |
| ControlPanel.OptionsOfDistinct | CaptureRegionApp/ControlPanelForm.cs:881-891 | lines that each give one option, with distinct keys, yield exactly those options in their order |
| ControlPanel.OptionsOfNew | CaptureRegionApp/ControlPanelForm.cs:889 | a line with a new key appends its option to the dictionary |
| ControlPanel.SortedEditorOptions | CaptureRegionApp/ControlPanelForm.cs:1280 | ordering well-formed options by key keeps them well-formed and their keys distinct |
| ControlPanel.UpperKeysDistinct | CaptureRegionApp/ControlPanelForm.cs:1280 | distinct single upper-case letter keys are also distinct ignoring case, so the ordering does not tie |
| ControlPanel.QuestionLinesRead | CaptureRegionApp/ControlPanelForm.cs:853-878 | question lines joined with line breaks trim to themselves and split back into the same lines |
| ControlPanel.OptionTextRead | CaptureRegionApp/ControlPanelForm.cs:1277-1283 | the option text of well-formed options splits back into its shown lines; trimmed, the first of them starts the options and they parse back to the options ordered by key |
| ControlPanel.OptionLinesRead | CaptureRegionApp/ControlPanelForm.cs:1281-1282 | option lines joined with line breaks split back into the same lines, whose trims parse back to the options |
| ControlPanel.OptionLinesParsed | CaptureRegionApp/ControlPanelForm.cs:1281 | every shown option line is a single line whose trim parses to its option |
| ControlPanel.ShownLineTrim | CaptureRegionApp/ControlPanelForm.cs:860 | a shown option line trims to itself, or, after an empty value, to itself without its last space |
| ControlPanel.ShownTextLines | CaptureRegionApp/ControlPanelForm.cs:845-861 | trimming the question box of a question and its option lines, splitting it and trimming each line gives the trimmed question lines followed by the trimmed option lines |
| ControlPanel.EditorRoundTripQuestion | CaptureRegionApp/ControlPanelForm.cs:827-830 | a question shown without options parses back to the same question with Options null |
| ControlPanel.EditorRoundTripOptions | CaptureRegionApp/ControlPanelForm.cs:827-892 | a question shown with its options parses back to the same question and its options ordered by key, for any options with one-letter upper-case keys and one-line trimmed values, empty values included |
| ControlPanel.EditRoundTrip | CaptureRegionApp/ControlPanelForm.cs:827-911 | saving a shown record without editing it changes only two things: its options come back ordered by key (null when there were none), and a blank AnswerText becomes the answer letter |
| ControlPanel.EditorShownParse | CaptureRegionApp/ControlPanelForm.cs:827-892 | the question box shown for a record parses back to its question and its options ordered by key |
| ControlPanel.AnswerBoxRead | CaptureRegionApp/ControlPanelForm.cs:831 | the answer box shown for a record with an answer letter trims to that letter, and saving it leaves the letter unchanged |
| ControlPanel.FindItem | CaptureRegionApp/ControlPanelForm.cs:677-685 | the found row has this name and no earlier row does; None means no row has it |
| ControlPanel.FindItemIndex | CaptureRegionApp/ControlPanelForm.cs:678-685 | the search loop finds the first row with the record's name, or reports none |
| ControlPanel.FindItemIsFirst | CaptureRegionApp/ControlPanelForm.cs:678-685 | the first row bearing a name is the one the search finds |
| ControlPanel.UpsertedShape | CaptureRegionApp/ControlPanelForm.cs:675-730 | the list keeps one row per file name: the record's row is updated in place, or a new row is appended when there is none, and every other row is unchanged |
| ControlPanel.Numbered | CaptureRegionApp/ControlPanelForm.cs:488 | there is one row per listed record (also line 402) |
| ControlPanel.NumberedSnoc | CaptureRegionApp/ControlPanelForm.cs:675-688 | adding a record with a new file name as row n + 1 appends it as the last row (also line 488) |
| ControlPanel.ScanStepValid | CaptureRegionApp/ControlPanelForm.cs:403-513 | one file of the scan keeps the listed records distinct by image and content, adds at most one record and only deletes files |
| ControlPanel.ScanAllValid | CaptureRegionApp/ControlPanelForm.cs:403-513 | the whole scan keeps the records distinct by image and content, lists at most one record per file and only deletes files |
| ControlPanel.ScanDropped | CaptureRegionApp/ControlPanelForm.cs:434-506 | a readable result file whose image is found nowhere is not listed; a readable result file that is not listed is gone after the scan, and so is its .processed marker |
| ControlPanel.StepDropped | CaptureRegionApp/ControlPanelForm.cs:436-506 | a step that does not list its readable file deletes the file and its marker |
| ControlPanel.ValidDistinctNames | CaptureRegionApp/ControlPanelForm.cs:437-482 | the records a scan lists have pairwise different file names |
| ControlPanel.LoadedScanShape | CaptureRegionApp/ControlPanelForm.cs:387-513 | LoadResults lists at most 200 records, with pairwise different image names and pairwise different content keys, both compared ignoring case; each record is named after its image; files are deleted, never created |
| ControlPanel.ScanFile | CaptureRegionApp/ControlPanelForm.cs:405-512 | the loop body for one result file performs exactly that file's scan step |
| ControlPanel.FindImage | CaptureRegionApp/ControlPanelForm.cs:413-431 | the image is the captures copy, then the video-captures copy, then the record's own ImagePath, the first one that exists |
| ControlPanel.ResultsPanel.constructor | CaptureRegionApp/ControlPanelForm.cs:387-396 | the panel starts with its folders and files, no rows and no record being edited |
| ControlPanel.ResultsPanel.AddResultItem | CaptureRegionApp/ControlPanelForm.cs:675-730 | the rows become the upsert of the record; files and the record being edited are unchanged |
| ControlPanel.ResultsPanel.ShowResultDetails | CaptureRegionApp/ControlPanelForm.cs:732-832 | without a selection nothing is being edited and both boxes are empty; with one, the selected row's record is being edited and the boxes show its editor text and answer |
| ControlPanel.ResultsPanel.SaveCurrentResult | CaptureRegionApp/ControlPanelForm.cs:834-923 | with nothing being edited nothing changes; otherwise the record takes the boxes' parse, its result file is written, and its row shows the edited record |
| ControlPanel.ResultsPanel.LoadResults | CaptureRegionApp/ControlPanelForm.cs:387-525 | the rows are exactly the records the scan of the first 200 result files lists, numbered by position, and the files are what the scan leaves |
| ControlPanel.ResultsPanel.ScanListing | CaptureRegionApp/ControlPanelForm.cs:402-513 | the foreach over the taken files, starting from an empty list, yields the full scan, and its records become the numbered rows |
| ControlPanel.ResultsPanel.LoadFile | CaptureRegionApp/ControlPanelForm.cs:403-513 | one pass of the loop advances the scan by one file, keeps it valid, and adds any record it lists as row idx |
| ControlPanel.ResultsPanel.AddListed | CaptureRegionApp/ControlPanelForm.cs:488 | AddResultItem(r, idx++) appends the newly listed record as the next numbered row |
| ControlPanel.ResultsPanel.Renumber | CaptureRegionApp/ControlPanelForm.cs:517-521 | every row's number column becomes its position plus one |
| ControlPanel.Renumbered | CaptureRegionApp/ControlPanelForm.cs:518-521 | renumbering keeps the number of rows |
| ControlPanel.RenumberedNumbered | CaptureRegionApp/ControlPanelForm.cs:517-521 | the renumbering after the scan changes nothing, because the scan already numbered the rows by position |

## Left out

- **Concurrency.** The two worker loops, their queues and semaphores (CapturePipeline.cs:28-34, 81-119), the watcher's `Timer` and Task scheduling are not modelled. Each stage handler and each watcher tick is one sequential method call. `ConcurrentDictionary.TryAdd` is a set insertion.
- **Static ledgers.** `_processedFiles`, `_contentHashes`, `_imageHashes`, `_questionIds` and `_questionNumbers` are static in the source (CapturePipeline.cs:39-43), so every pipeline instance shares them. Here they are fields of one pipeline object. `_ocrHistory` is not among them: it is an instance list with its own instance lock (CapturePipeline.cs:35-36), as the model's field is.
- ControlPanel.ScanStep, ControlPanel.ResultsPanel.SaveCurrentResult, Pipeline.CapturePipeline.StoreResult and the other deletions of the pipeline: in the model every file delete and write succeeds. In the source the failures are swallowed. A throwing `File.Delete` in LoadResults (ControlPanelForm.cs:441-452, 461-476, 497-509) skips the rest of its block, so the marker, and for a content duplicate the image, stay on disk; the scan's contract states what happens when the deletes succeed. A failing `File.WriteAllText` in SaveCurrentResult (ControlPanelForm.cs:913-926) is caught after the record was already changed in place (lines 893-910): no file is written and the row is not refreshed, while the contract adds the result path to the files. `TryDeleteFile` (CapturePipeline.cs:1483-1496) ignores a failing delete in the same way.
- **UNC and device paths.** Paths models drive roots such as "C:" and leading separators only. The roots of `\\server\share` and `\\?\` paths, which .NET's Path treats as one unit, are not modelled, so Paths.FileName of such a root differs from Path.GetFileName.
- Paths.FileNameOfCombine, Paths.CombineInjective and Paths.CombineDistinct: need non-empty names, because Path.Combine(dir, "") is dir itself, so the empty name is not recovered and can collide with a rooted name equal to dir.
- **The AI client (CaptureRegionApp/Processing/Ai/AiClient.cs) is not part of this model.** Its HTTP calls are the sequence of replies the stage-two loop receives. The code has a single Gemini attempt and then Ollama, with no multi-key rotation or cooldown, so none is modelled.
- **Google Vision and PaddleOCR are not part of this model.** Their outputs are inputs of stage one.
- **CommandLineOcr.ExtractText process plumbing.** The process, its output streams, a failing `Process.Start` and cancellation are not modelled. The exit code, stdout and stderr are inputs.
- **VideoFrameExtractor.Extract file-system and process plumbing.** The deletion and re-creation of the temp folder before ffmpeg runs (VideoFrameExtractor.cs:43-49) and its deletion afterwards (line 96) are not modelled. The `listing` parameter stands for the `frame_*.png` files of that freshly cleaned folder. The ffmpeg process, its streams and a failing `Process.Start` are not modelled; its exit code and stderr are inputs. A failing `File.Move` (line 91) is not modelled: in the source it ends the run with an exception after the earlier frames have already been moved, while the model's moves always succeed. Cancellation is left out, because the only caller passes no token (ControlPanelForm.cs:1471).
- **FindTesseractPath and FindFfmpegPath.** Both probe the machine. Their results are parameters.
- **Image processing.** `ApplyGrayscaleAndContrast` uses floating-point weights, and `PreprocessImageForOcr` draws with System.Drawing. Only `DetectVerticalContentArea`'s integer logic is modelled.
- **Opaque functions.** SHA-256, `string.GetHashCode`, `JsonDocument` and `JsonSerializer` parsing, and environment variables are parameters. `Path.GetFullPath` is not modelled: the pipeline's processed-files ledger is keyed by the path as given.
- **Side effects of saving.** `SaveResultToJson` and `SaveIntermediateOcrJson` are not modelled beyond the paths they create. The model does not capture the move of `capture_video_` images into VideoCaptures (CapturePipeline.cs:1529-1559): the saved record keeps its FileName and ImagePath from stage two.
- **Logging and result events.** AppLogger and ResultBus have no effect on the decisions.
- **FixCommonOcrErrors** (CapturePipeline.cs:1180-1224). Nothing calls it.
- **Settings persistence.** `ProcessingSettings.Load` and `Save` read and write a JSON file.
- **UI.** WinForms layout, dialogs, zoom and splitter math, the HotkeyWindow P/Invoke, ResultsForm.cs, ResultRecord.cs and TestAi/Program.cs.
- **Character classes.** `char.IsLetter`, `char.IsUpper`, `char.IsLower`, `\s`, `\d` and `\w` cover ASCII, the Latin-1 letters À to þ without × and ÷, and the Vietnamese letters. The Latin-1 letters ª (U+00AA), µ (U+00B5), º (U+00BA), ß (U+00DF) and ÿ (U+00FF) are letters in the source but punctuation in the model. So a one-letter answer box holding ß or ÿ sets Answer to "ß" or "Ÿ" in the source (ControlPanelForm.cs:907-909), while the model keeps the previous Answer. Every other character outside these sets is treated as punctuation. Case mapping covers the modelled letters and is the invariant one: the `ToUpper()` calls at ControlPanelForm.cs:887 and 909 use the current culture, so under a Turkish culture, for example, "i" becomes "İ" in the source and "I" in the model. The lower-cased prefix tests of IsSystemPhrase (CaptureRegionApp/Processing/CapturePipeline.cs:640-654) use the culture-sensitive `StartsWith`; the model compares ordinally.
- **String length.** `Length` and indices in the source count UTF-16 code units; the model's strings are sequences of Unicode scalar values. The two agree on text inside the Basic Multilingual Plane (U+0000 to U+FFFF) and differ for characters outside it, which count twice in the source.
- **Null.** A null string is modelled as the empty string wherever the source treats the two alike through `string.IsNullOrWhiteSpace` or `?? string.Empty`.
- ControlPanel.ResultsPanel.LoadResults: takes the result files in the order of its listing parameter. The culture-sensitive `OrderByDescending` is not modelled, so the contract does not state that the 200 files kept are the last 200 by name.
- QuestionMeta.FindNumber, QuestionMeta.FindId: their own contracts state only that what they return is a match. That the match is the leftmost is stated by QuestionMeta.LeftmostIsFirst about the scan both are defined by.

## Observations

Verifying the natural contracts showed several branches of the source that can never run, and one retry that cannot succeed. Where a lemma states the fact, its name is given:

- **Retry after a stage-two failure is defeated** (`Pipeline.RetryAfterFailureIsDuplicate`). The stage-two error handler removes the image from the processed-files ledger so that it can be retried (CapturePipeline.cs:512-520). The image's hash is still in the image ledger, though, so the next submission is deleted as a duplicate image in stage one.
- **An unreachable fallback in ParseFallbackPlainText** (`AiReply.FallbackHeadLetterDead`). The branch at CapturePipeline.cs:850-854 infers the answer from the answer text. The answer text is only ever set together with the answer, so this branch never runs.
- **An unreachable pattern in TryRecoverFromOcr** (`AiReply.RecoveredAnswerLone`). Any reply that the head pattern at CapturePipeline.cs:884 matches has already been matched by the lone-letter pattern at line 875.
- **An unreachable pattern in CommandLineOcrService** (`CommandLineOcr.SecondPatternSubsumed`). Every command that the pattern at CommandLineOcrService.cs:82 matches is matched by the one at line 60, so lines 83-101 never run.
- **An unreachable size check in ConfigureFixedRegionAndRestart.** The check for a width or height ≤ 0 (Program.cs:289-294) cannot fire when the region comes from the capture overlay. The overlay's invariant `CaptureForm.Valid` states that a captured region is always larger than 2×2 (Program.cs:90-100). The method's model still takes the region as an input and keeps the check.
- **A Vision fallback beside a Vision main engine** (`Pipeline.VisionAliasKeepsFallback`). CreateOcrService trims and lower-cases the provider and picks Vision for "googlevision", "vision" or "gcv" (CapturePipeline.cs:1625-1638). The test that withholds the Vision fallback compares the untrimmed provider with "googlevision" alone (CapturePipeline.cs:53-54). With "vision", "gcv" or a padded name, the fallback repeats the main engine's call.
- **Short mock ids are not read back** (`MockOcr.MockMeta`). The mock OCR prints ids from 0 to 99999, but question-id extraction needs at least three digits. So an id below 100 is never read back.

These are recorded as facts about the source rather than corrected. In every case the reachable behaviour is the one the model proves.

