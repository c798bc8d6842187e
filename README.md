# Criminal-record hiring study: response parsing, trial tracking and cleaning

The study asks large language models to rate a resume on a fixed questionnaire. There
are seventeen scaled questions, a manipulation check (question 18) and a free-text
explanation (question 19). Each (resume, model) pair is run for a fixed number of
trials. This project models the core of that pipeline in Dafny and proves properties
of the model:

- **Parsing one reply** (parsers.py):
  - `parse_scores` tries the decoded JSON shapes in order: `q1`..`q17` keys, a `scores`
    list, a nested `resume_evaluation.questions` list, then the recursive
    `find_score_array` search.
  - If none of them matches, it falls back to a line-by-line search for a standalone
    digit 1-7, then reconciles that count with N.
  - `validate_scores` checks each answer against the scale of its question.
  - `parse_manipulation_check` finds the YES/NO verdict.
  - `parse_thought_process` finds the explanation, through `extract_text`, a marker
    line, or the last long section.
- **Tracking the trials of one file** (file_processor.py `process_file`):
  - Rounds of at most `batch_size` missing trials, lowest first.
  - Every trial submitted in a round is marked completed, whatever its outcome.
  - Rows that parse and validate are collected.
  - At the end the rows are sorted by trial and appended to the results CSV. The header
    is written only when the file is new.
- **The older driver** (main.py):
  - The one-line `parse_scores`.
  - The `process_file` loop over `range(100)` in batches of fifteen. It marks a trial
    completed only when its future returns a reply.
  - The OpenAI key rotation: `switch_openai_key`, the quota guard in
    `get_openai_score`, and the retry loop of `retry_request`.
- **Cleaning a results file** (cleanup.py):
  - `extract_number_from_cell`.
  - The per-line logic of `clean_csv`. Cells are scanned from the third column, or
    from the fourth for Claude files. The first seventeen numbers found become
    `Q1`..`Q17`, but only when at least seventeen are found.

## How the model is built

**Modules.** Each source file maps to modules as follows:
- parsers.py: `ScoreParsing`, `ScoreValidation`, `ManipulationCheck`, `ThoughtProcess`,
  and `Parsers` for what the three parsers read together from one JSON reply.
- file_processor.py: `FileProcessor`, plus `CsvOutput` for the appended results file and
  `Sorting` for `sorted(..., key=...)`.
- main.py: `Legacy` and `Keys`.
- cleanup.py: `Cleanup`.

Shared pieces:
- `Text`: `strip`, `split`, `upper`/`lower`, `str(int)`.
- `Json`: the decoded JSON value.
- `Config`: the questionnaire's count and its answer scales.
- `Wrappers`: Option and Result.

**Functions and methods.** Each operation is a pure function that says what it
computes. Where the source loops, a method runs the source's loop and is proved equal
to that function. Examples:
- `ScoreParsing.ParseScores` with `ParsedScores`;
- `ThoughtProcess.ParseThoughtProcess` with `Thought`;
- `FileProcessor.RunRounds` with `Run`;
- `Cleanup.CleanCsv` with `Cleaned`.

**Parameters.**
- `json.loads` is a parameter: each parser receives `decoded`, which is None when the
  text does not decode.
- The future of trial `i` in round `r` is a parameter, `dispatch(r, i)`.
- The request made with key `k` during attempt `a` is a parameter, `call(a, k)`.

**Where the source's own text leads one to expect more than its code does, the model
follows the code:**
- The `while` loop of file_processor.py:37 marks every submitted trial completed,
  whatever its outcome (lines 58, 76, 82 and 86), so it looks bound to end after
  `ceil(iterations_per_file / batch_size)` rounds. As written, a model that is in no
  provider list submits nothing, so the loop never ends; the same holds for a
  `batch_size` of 0 (`FileProcessor.NoProgressWithoutSubmissions`). The model runs the
  loop for at most `maxRounds` rounds and proves the round count only for a listed model
  with a positive batch size (`FileProcessor.RoundsToFinish`).
- The comment and the wait at main.py:275-277 say that `retry_request` waits out a rate
  limit. In main.py it does so only for a rate-limited quota error of the last key, never
  for a plain rate limit (see Findings).
- A JSON reply's `thought_process` is returned stripped (parsers.py:174), so the text
  comes back without its surrounding white space, not exactly as sent
  (`Parsers.FullReply`).
- parsers.py:153-161 scans the lines around a `MANIPULATION`/`Q18`/`18.` line for YES or
  NO, as a strategy after the whole-text search. As written, it can never decide anything
  the whole-text search before it has not already decided
  (`ManipulationCheck.MarkerScanUndecided`).

## Model

| member | source | states |
|---|---|---|
| ScoreParsing.ScoreDigitsFrom | parsers.py:95 | every match of the standalone-digit pattern is a value in 1..7 |
| ScoreParsing.FirstScoreDigitFrom | parsers.py:82 | the search finds a value in 1..7 or nothing |
| ScoreParsing.SearchIsFirstOfFindall | parsers.py:82-95 | the per-line search finds exactly the first of the matches the whole-text scan lists |
| ScoreParsing.LineScore | parsers.py:74-85 | what one line contributes is absent or in 1..7 |
| ScoreParsing.StripQLabel | parsers.py:79 | the anchored `Q<i>` substitution removes only a prefix: what it leaves is a suffix of the line |
| ScoreParsing.StripNumberLabel | parsers.py:80 | the anchored `<i>.`/`<i>)` substitution removes only a prefix |
| ScoreParsing.LineResults | parsers.py:74-85 | one entry per line, each that line's contribution |
| ScoreParsing.LineScores | parsers.py:71-85 | at most one number per line |
| ScoreParsing.LineScoresInRange | parsers.py:71-85 | every number the line loop collects is in 1..7 |
| ScoreParsing.LineScoresStep | parsers.py:74-85 | one more line appends its contribution, if any, to what was collected |
| ScoreParsing.Reconcile | parsers.py:87-99 | every success has exactly N numbers; ReconcileCases states which |
| ScoreParsing.ReconcileCases | parsers.py:87-99 | at least N line numbers give the first N (exactly N: all of them); fewer give the first N standalone digits 1-7 of the whole reply when it holds N, otherwise the ValueError with the line count |
| ScoreParsing.ParsedFromText | parsers.py:94-99 | a non-decoding reply whose lines give fewer than N numbers parses to the first N standalone digits 1-7 of the whole reply if there are N, else raises naming the line count |
| ScoreParsing.ReconcileInRange | parsers.py:87-99 | reconciliation hands out only numbers in 1..7 |
| ScoreParsing.QValuesFrom | parsers.py:21-27 | the `q<i>` loop yields at most one value per remaining question |
| ScoreParsing.QValueAt | parsers.py:21-27 | entry `j - i` of the loop's values is `int` of key `q<j>`, and that key is present |
| ScoreParsing.QValuesStop | parsers.py:24-27 | the loop stops early only at a missing key |
| ScoreParsing.QValuesAllPresent | parsers.py:21-28 | when every key is present and converts, the loop collects all of them |
| ScoreParsing.QKeysAttempt | parsers.py:20-29 | the `q<i>` strategy acts only when `q1` and `q17` are keys, and a success has N values |
| ScoreParsing.ScoresAttempt | parsers.py:31-34 | the `scores` strategy raises iff `scores` is a key whose value does not iterate or whose items do not all convert; it succeeds iff they convert to N integers, and then yields `[int(x) for x in data['scores']]` |
| ScoreParsing.NestedQuestions | parsers.py:37-39 | the items of `resume_evaluation.questions`, present only when `resume_evaluation` is an object whose `questions` member is a list |
| ScoreParsing.NestedAttempt | parsers.py:36-42 | the nested strategy raises iff that list has an item that does not convert; it succeeds iff the items convert to N integers, and then yields them |
| ScoreParsing.QKeysPath | parsers.py:20-29 | the `q1`..`qN` strategy succeeds iff `q1` and `q17` are keys and every `q<i>` is present and converts, and then yields them in question order |
| ScoreParsing.FindScoreArray | parsers.py:45-58 | a hit has exactly N entries and comes from a list or an object; a list is a hit iff all its items are ints or strings converting to N integers, and the hit is those integers; on an object, FindInMembers gives the first hit depth first |
| ScoreParsing.FindInMembers | parsers.py:53-57 | a hit is what the search finds in some member, with no earlier member giving a non-empty hit; no hit means no member gives one |
| ScoreParsing.ObjectScores | parsers.py:18-62 | every strategy on a decoded object returns N numbers or nothing; ScoresPath, NestedPath and SearchPath state which |
| ScoreParsing.JsonScores | parsers.py:16-69 | the `try` block returns N numbers or nothing; ListPath states the list branch |
| ScoreParsing.ParsedScores | parsers.py:11-99 | every success of `parse_scores` has exactly N entries, and it raises "Empty response" iff the stripped reply is empty |
| ScoreParsing.ScoresPath | parsers.py:31-34 | an object on which the `q<i>` strategy falls through and whose `scores` member converts to N integers parses to those integers |
| ScoreParsing.NestedPath | parsers.py:36-42 | an object on which the first two strategies fall through and whose `resume_evaluation.questions` list converts to N integers parses to those integers |
| ScoreParsing.SearchPath | parsers.py:44-62 | an object on which the three named strategies fall through parses to what `find_score_array` finds |
| ScoreParsing.ListPath | parsers.py:64-67 | a decoded list whose items convert to N integers parses to those integers |
| ScoreParsing.RaiseFallsBack | parsers.py:16-69 | once a named strategy raises, the reply parses as though it had not decoded |
| ScoreParsing.CollectLineScores | parsers.py:71-85 | the source's line loop computes the line scan |
| ScoreParsing.ParseScores | parsers.py:11-99 | the method computes `ParsedScores`: all strategies in order, then the fallback |
| ScoreParsing.ThreesFound | parsers.py:45-52 | a list of N convertible answers is found by the recursive search |
| ScoreParsing.BadEntryRaises | parsers.py:32 | a `scores` entry that is not a number makes the conversion raise |
| ScoreParsing.BadScoresSearch | parsers.py:45-58 | for any object whose first member is a list that does not convert and whose second is a list of N convertible answers, the recursive search catches the error and finds the second list |
| ScoreParsing.RaiseSkipsGenericSearch | parsers.py:16-69 | for any object on which the `q<i>`, `scores` or nested strategy raises before an earlier one succeeds, the `try` block yields nothing, whatever the recursive search would find |
| ScoreParsing.BadScoresRaise | parsers.py:31-69 | example: on `{"scores": ["x"], "answers": [3, ..., 3]}` the recursive search alone would find the N threes, but the `try` block yields nothing |
| ScoreParsing.FallbackInRange | parsers.py:71-99 | whatever the line scan or the whole-text scan produces lies in 1..7 |
| ScoreParsing.AnswerLineShape | parsers.py:72-77 | a labelled answer line is non-blank, has no line break and no white space at its ends |
| ScoreParsing.QLabelRemoved | parsers.py:79 | `Q<i>: ` is removed by the first substitution |
| ScoreParsing.NumberLabelRemoved | parsers.py:80 | `<i>. ` is removed by the second substitution |
| ScoreParsing.LoneDigit | parsers.py:82 | a lone digit 1-7 is found by the search |
| ScoreParsing.AnswerLineScore | parsers.py:74-85 | a labelled answer line contributes its answer |
| ScoreParsing.LineScoresAll | parsers.py:71-85 | lines that each contribute one number yield exactly those numbers, in order |
| ScoreParsing.AnswerTextSplit | parsers.py:72 | the reply's lines come back from splitting it on line breaks |
| ScoreParsing.AnswerLinesScores | parsers.py:71-85 | each answer line contributes its answer, in order |
| ScoreParsing.ParsedFromLines | parsers.py:71-92 | a reply that does not decode and whose lines yield at least N numbers parses to the first N |
| ScoreParsing.AnswersRoundTrip | parsers.py:71-92 | writing N or more answers one per labelled line and parsing the reply gives back the first N |
| ScoreValidation.FirstViolation | parsers.py:107-112 | the first answer that fails its check, with all earlier ones passing; none means all pass |
| ScoreValidation.FirstViolationAt | parsers.py:107-112 | a failing answer after passing ones is the one reported |
| ScoreValidation.ValidateScores | parsers.py:102-114 | the count check and then the loop compute `Validated` |
| ScoreValidation.ValidatedOk | parsers.py:102-114 | validation succeeds iff there are N answers, each in its question's range, and then returns its input unchanged |
| ScoreValidation.ValidateIdempotent | parsers.py:102-114 | validating a validated list gives the same result |
| ScoreValidation.OutOfRangeNamesFirst | parsers.py:107-112 | the error names the first failing question, its answer and its bounds |
| ScoreValidation.QuestionnaireValidation | prompts.py:15-141 | against the questionnaire's scales, validation accepts exactly the answers on each question's scale |
| Config.ScaleOf | prompts.py:15-141 | every scale starts at 1 and has two to seven points, seven only for question 1 |
| ScoreValidation.ParsedHasValidCount | parsers.py:87-105 | what `parse_scores` returns never fails the count check |
| ManipulationCheck.YesNo | parsers.py:125 | a YES or NO text is read as that verdict, any other text as none |
| ManipulationCheck.FirstYesNo | parsers.py:139-142 | the verdict, never UNKNOWN, is what some member value reads; none means no value reads YES or NO |
| ManipulationCheck.FirstYesNoIsFirst | parsers.py:139-142 | the value that gives the verdict is the first one reading YES or NO: every value before it reads neither |
| ManipulationCheck.JsonVerdict | parsers.py:119-144 | only a decoded object yields a verdict, and never UNKNOWN; DirectVerdict, NestedStringVerdict and NestedAnswersVerdict state which |
| ManipulationCheck.NestedCheck | parsers.py:128-131 | `resume_evaluation.manipulation_check`, present only when `resume_evaluation` is an object holding that key |
| ManipulationCheck.DirectVerdict | parsers.py:123-126 | a direct `manipulation_check` member reading YES or NO once upper-cased is the verdict |
| ManipulationCheck.NestedStringVerdict | parsers.py:127-136 | without a direct answer, a nested `manipulation_check` string gives the verdict its upper-cased text reads |
| ManipulationCheck.NestedAnswersVerdict | parsers.py:127-142 | without a direct answer, a nested `manipulation_check` object gives the verdict of its first value reading YES or NO, and none iff no value does |
| ManipulationCheck.VerdictSources | parsers.py:119-144 | a decoded object yields a verdict only through a direct member reading YES or NO or through the nested member |
| ManipulationCheck.ParseManipulationCheck | parsers.py:117-164 | the method, with its nested loops, computes `ManipulationVerdict` |
| ManipulationCheck.ScanWindow | parsers.py:157-161 | the inner loop over at most five lines computes the window's verdict |
| ManipulationCheck.LineWordInText | parsers.py:146-158 | a whole word of one upper-cased line is a whole word of the upper-cased reply |
| ManipulationCheck.WindowWord | parsers.py:157-161 | a window answers YES (NO) only if one of its lines holds that word |
| ManipulationCheck.MarkerScanWord | parsers.py:153-161 | the marker scan answers YES (NO) only if some line holds that word |
| ManipulationCheck.MarkerScanUndecided | parsers.py:146-161 | after the whole-text search found neither word, the marker scan finds neither |
| ManipulationCheck.TextVerdictIsWordSearch | parsers.py:146-164 | for a reply that does not decode, the verdict is the whole-word search alone; UNKNOWN iff neither word occurs |
| ManipulationCheck.TextVerdict | parsers.py:146-164 | the text fallback answers UNKNOWN iff neither YES nor NO is a whole word of the upper-cased reply |
| ManipulationCheck.ManipulationVerdict | parsers.py:117-164 | UNKNOWN iff the decoded JSON gives no verdict and neither YES nor NO is a whole word of the upper-cased reply |
| Json.KeyIndex | parsers.py:20 | the position of the first member with that key; none means no member has it |
| Json.ConvertAll | parsers.py:32 | `[int(x) for x in ...]` keeps the length |
| Json.PyInt | parsers.py:25 | only ints, bools and strings convert; anything else raises |
| Json.IntOfString | parsers.py:32 | a success is the value of a signed numeral whose underscores each stand between two digits, read without them; without underscores it is the plain signed numeral |
| Json.IntOfStringGrouped | parsers.py:32 | `int("1_000") == 1000` |
| Json.IntOfStringMisgrouped | parsers.py:32 | `int("1__0")` raises |
| Json.Iterate | parsers.py:32 | `for x in v` works on lists, strings and objects only; a string gives one item per character, an object its keys in order |
| Json.IntToStringStripped | file_processor.py:113-114 | what `str` writes for an integer has no white space at either end |
| Json.IntOfStringRoundTrip | file_processor.py:113-114 | `int(str(i)) == i` |
| ThoughtProcess.ExtractFromMembers | parsers.py:201-204 | a result is non-empty and is what some member yields, no earlier member yielding a non-empty text; none means no member does |
| ThoughtProcess.ExtractText | parsers.py:192-205 | a string yields itself stripped; an object its `text` member, stripped, else what its `response` member yields, else the first member's non-empty text; nothing else yields a text |
| ThoughtProcess.JsonThought | parsers.py:169-210 | only a decoded object yields an explanation, and a `thought_process` member gives its stripped text |
| ThoughtProcess.DirectThought | parsers.py:173-174 | a `thought_process` member is returned stripped, even when empty |
| ThoughtProcess.VerdictCut | parsers.py:234 | where the trailing-verdict substitution cuts |
| ThoughtProcess.StripVerdict | parsers.py:234 | the substitution removes only a tail: what it leaves is a prefix of the text |
| ThoughtProcess.StripVerdictTail | parsers.py:234 | the substitution removes only white space, YES or NO in any case, and white space, and what it leaves does not end in white space |
| ThoughtProcess.FirstMarker | parsers.py:226-230 | the first line that holds a marker; none means no line does |
| ThoughtProcess.SeparatorAt | parsers.py:238 | where a section separator starting at a position ends, if one does |
| ThoughtProcess.SectionsFrom | parsers.py:238 | `re.split` on the separators: the pieces between separators |
| ThoughtProcess.LastLong | parsers.py:240-244 | the last section longer than 100 characters after stripping; none means none is |
| ThoughtProcess.ParseThoughtProcess | parsers.py:167-247 | the method computes `Thought`: the JSON path, then the text fallback |
| ThoughtProcess.ParseText | parsers.py:212-247 | the text fallback: marker, then sections, then the empty string |
| ThoughtProcess.TextThought | parsers.py:212-247 | a non-empty explanation comes from a marker line or from a reply of more than one section |
| ThoughtProcess.Thought | parsers.py:167-247 | when the decoded JSON gives none, a non-empty explanation comes from a marker line or from several sections |
| ThoughtProcess.FindMarker | parsers.py:223-230 | one past the first marker line, or -1 |
| ThoughtProcess.ScanSections | parsers.py:238-244 | the walk back over the sections returns the last long one without its closing verdict |
| ThoughtProcess.LastLongStep | parsers.py:240-244 | a long section ends the walk, a short one passes it on |
| ThoughtProcess.StripIdempotent | parsers.py:233 | `strip()` of a stripped text changes nothing |
| ThoughtProcess.StripVerdictStripped | parsers.py:233-234 | removing the closing verdict from a stripped text leaves a stripped text |
| ThoughtProcess.ThoughtStripped | parsers.py:167-247 | the explanation never has white space at either end |
| ThoughtProcess.AfterMarkerStripped | parsers.py:232-236 | the text after the marker, without its verdict, is stripped |
| ThoughtProcess.LongSectionStripped | parsers.py:238-244 | the chosen section, without its verdict, is stripped |
| ThoughtProcess.ExtractTextStripped | parsers.py:192-205 | every text `extract_text` yields is stripped |
| ThoughtProcess.JsonThoughtStripped | parsers.py:169-210 | every text found in the decoded JSON is stripped |
| ThoughtProcess.SectionsWeave | parsers.py:238 | putting the separators back between the sections gives the reply back |
| ThoughtProcess.SectionSlice | parsers.py:238 | each section is a contiguous piece of the reply |
| ThoughtProcess.AfterMarkerQuotes | parsers.py:232-236 | the text after the marker is a piece of the reply |
| ThoughtProcess.SectionQuotes | parsers.py:240-244 | a chosen section is a piece of the reply |
| ThoughtProcess.ThoughtQuotes | parsers.py:212-247 | for a reply that is not JSON, the explanation is a piece of the reply: the fallback quotes, it never composes |
| Parsers.FullReply | parsers.py:11-174 | a reply decoding to an object without `q1` that holds a `scores` list of N integers, a `manipulation_check` string reading YES or NO and a `thought_process` string `s` parses to those integers in order, that verdict and `s` stripped |
| Sorting.InsertPermutes | file_processor.py:100 | inserting adds exactly one copy of the element |
| Sorting.InsertSorted | file_processor.py:100 | inserting into a sorted sequence keeps it sorted |
| Sorting.SortBySortedPermutation | file_processor.py:100 | the sort returns a permutation of its input, sorted by key |
| Sorting.SortBySortedUnchanged | file_processor.py:100 | a sequence already in key order comes back unchanged |
| CsvOutput.ResultFile.constructor | file_processor.py:104 | the path before any run: no file, no lines |
| CsvOutput.ResultFile.Append | file_processor.py:104-114 | appending leaves the old lines, then the header if the file was new, then the rows |
| CsvOutput.AppendKeepsContent | file_processor.py:104-114 | appending never rewrites what the file held: old lines are a prefix and the rows follow in order |
| CsvOutput.HeaderWrittenOnce | file_processor.py:104-114 | from a path that does not exist, any number of appends leave exactly one header, on the first line |
| FileProcessor.MissingFromSorted | file_processor.py:38-39 | the missing trials are each listed once, in ascending order |
| FileProcessor.Batch | file_processor.py:38-39 | a round takes at most `batch_size` trials, each in `range(iterations_per_file)` and not yet completed |
| FileProcessor.BatchIsLowest | file_processor.py:38-39 | a round takes `min(batch_size, missing)` trials, ascending, and no trial it leaves out is smaller than one it takes |
| FileProcessor.SubmittedPairs | file_processor.py:44-51 | a listed model submits every trial of the round, in order, each with its future |
| FileProcessor.SubmitRound | file_processor.py:44-51 | the submit loop builds exactly those futures |
| FileProcessor.RowFor | file_processor.py:53-86 | a row comes only from a reply, and carries the call's model and the trial |
| FileProcessor.Collected | file_processor.py:53-86 | the future loop only adds: completed trials grow and rows are appended |
| FileProcessor.Round | file_processor.py:38-86 | a round only adds: completed trials grow and rows are appended |
| FileProcessor.Run | file_processor.py:37-98 | the state after `k` passes of the `while` body, from nothing completed; what it keeps is stated by `RunGrows` |
| FileProcessor.RunGrows | file_processor.py:37-98 | each further round keeps every completed trial and every row of the rounds before |
| FileProcessor.RowForIff | file_processor.py:53-86 | a trial yields a row iff its reply parses and validates; the row holds the model, the trial and the N validated answers |
| FileProcessor.HandleTrial | file_processor.py:53-86 | the body of the future loop computes the trial's row, if any |
| FileProcessor.CollectOne | file_processor.py:53-86 | one future: the trial is marked completed, whatever it yields, and its row, if any, is appended |
| FileProcessor.CollectRound | file_processor.py:53-86 | the loop over a round's futures computes the round's collection |
| FileProcessor.PlayRound | file_processor.py:38-86 | one pass of the `while` body computes one round |
| FileProcessor.RunRounds | file_processor.py:37-98 | the `while` loop stops at the first finished round or at the bound |
| FileProcessor.ProcessFile | file_processor.py:19-127 | as `RunRounds`; when the loop ends, the sorted rows are appended, and otherwise the file is left alone; for a listed model with a positive batch size, it ends after `ceil(total / batch_size)` rounds with every trial completed and the rows already sorted |
| FileProcessor.StepsFollow | file_processor.py:37-98 | a loop whose every pass takes one state to the next reaches the k-th after k passes |
| FileProcessor.RecordRoundTrip | file_processor.py:107-114 | a row with N answers survives being written as a line and read back |
| FileProcessor.RecordIsNotHeader | file_processor.py:107-114 | no row's line reads like the header |
| FileProcessor.ResultsHeaderOnce | file_processor.py:103-114 | however many runs append to one results file, the header is written once, on the first line |
| FileProcessor.BelowSize | file_processor.py:38 | `len(set(range(m))) == m` |
| FileProcessor.MissingAfterBelow | file_processor.py:38-39 | with the first `c` trials completed, the missing trials from `i` on are `max(i, c)` .. `total - 1`, in order |
| FileProcessor.BatchAfterBelow | file_processor.py:38-39 | with the first `c` trials completed, a round takes the next `batch_size` trials, or as many as are left |
| FileProcessor.Reach | file_processor.py:37-39 | the trials `k` rounds complete never exceed `iterations_per_file` |
| FileProcessor.CollectedBlock | file_processor.py:53-86 | a round over trials `c`, `c + 1`, ... completes them one at a time, adding their rows in order |
| FileProcessor.RoundFromBelow | file_processor.py:38-86 | a round starting from the first `c` trials completes the next `batch_size`, adding their rows in trial order |
| FileProcessor.RunBlocks | file_processor.py:37-98 | `k` rounds of a listed model complete exactly the first `Reach(k)` trials, with their rows in trial order |
| FileProcessor.RoundStep | file_processor.py:38-86 | round `r` takes the state after `r` rounds to the state after `r + 1` |
| FileProcessor.ReachIsMin | file_processor.py:37-39 | `k` rounds reach `min(k * batch_size, iterations_per_file)` |
| FileProcessor.CeilDivBound | file_processor.py:37-39 | `k` rounds of `b` trials cover `t` trials iff `k >= ceil(t / b)` |
| FileProcessor.RoundsToFinish | file_processor.py:37-98 | a listed model with a positive batch size finishes exactly from round `ceil(total / batch_size)` on |
| FileProcessor.NoProgressWithoutSubmissions | file_processor.py:43-51 | an unlisted model, or a batch size of 0, completes nothing and never finishes |
| FileProcessor.TrialRowsOrdered | file_processor.py:53-86 | the rows of one round are of increasing trials within the round's range |
| FileProcessor.TrialRowsFrom | file_processor.py:53-86 | each row of a round is the row its trial's reply yields |
| FileProcessor.TrialRowsComplete | file_processor.py:53-86 | every trial of a round whose reply yields a row has one |
| FileProcessor.BlockRowsOrdered | file_processor.py:37-98 | the rows of the first `k` rounds are of increasing trials, all among the first `Reach(k)` |
| FileProcessor.BlockRowsFrom | file_processor.py:37-98 | each of those rows is what its trial's reply yields |
| FileProcessor.BlockRowsComplete | file_processor.py:37-98 | every such trial whose reply yields a row has one |
| FileProcessor.CompletedWithinRange | file_processor.py:37-86 | every completed trial is one of `range(iterations_per_file)`, and every row is of a completed trial |
| FileProcessor.ResultsValid | file_processor.py:62-76 | every row held has N answers, each on its question's scale |
| FileProcessor.WrittenRows | file_processor.py:100-114 | when the loop ends, every trial is completed and sorting changes nothing |
| Cleanup.StripCharIsSlice | cleanup.py:19 | `strip('"')` keeps a contiguous piece and drops only quotes |
| Cleanup.NextDigit | cleanup.py:27 | the first digit at or after a position |
| Cleanup.FirstFoundIsFirstRun | cleanup.py:27-29 | `findall` finds nothing iff there is no digit, and otherwise the value of the first maximal run of digits |
| Cleanup.MatchAgreesWithFirstFound | cleanup.py:22-29 | the anchored match succeeds iff the text starts with a digit, and then agrees with `findall` |
| Cleanup.TrimKeepsFirstFound | cleanup.py:19 | cutting non-digits off either end does not change the first run of digits |
| Cleanup.StripKeepsFirstFound | cleanup.py:19 | `strip()` does not change the first run of digits |
| Cleanup.StripQuotesKeepsFirstFound | cleanup.py:19 | `strip('"')` does not change the first run of digits |
| Cleanup.ExtractNumberIsFirstFound | cleanup.py:9-31 | a text cell yields the value of its first run of digits, wherever it starts |
| Cleanup.NumeralFound | cleanup.py:22-29 | a numeral is found as its absolute value |
| Cleanup.ExtractNumeral | cleanup.py:9-31 | a text cell holding `str(i)` yields the absolute value of `i` |
| Cleanup.ExtractDropsSign | cleanup.py:22-29 | `-3` yields 3 |
| Cleanup.ExtractTruncatesDecimal | cleanup.py:22-29 | `4.5` yields 4 |
| Cleanup.ExtractQuoted | cleanup.py:19-24 | white space and quotes around a number do not matter |
| Cleanup.ExtractNothing | cleanup.py:9-31 | a text without digits and a missing cell yield nothing |
| Cleanup.ExtractNumber | cleanup.py:9-31 | a missing cell yields nothing, a float its truncation toward zero (an infinity raises, see `InfinityAborts`), and a text cell only a non-negative number |
| Cleanup.IsClaude | cleanup.py:54 | a line is read the Claude way when its model names Claude or the input path names Anthropic, in any case |
| Cleanup.CellNumber | cleanup.py:56-70 | a missing cell contributes nothing, a float its truncation in both branches, and a text cell outside the Claude branch only a non-negative number |
| Cleanup.ColumnIndex | cleanup.py:42-43 | the first column with the name; none means no column has it |
| Cleanup.Answers | cleanup.py:46-47 | a cleaned line always has seventeen answer cells |
| Cleanup.AnswersAllOrNone | cleanup.py:72-78 | a line gets all seventeen answers, its first seventeen numbers, when it has at least seventeen, and otherwise none |
| Cleanup.CollectNumbers | cleanup.py:56-70 | the column loop raises iff a scanned cell is an infinity its branch converts (an infinite float in either branch, `int(float(...))` overflowing on a text in the Claude branch); otherwise it computes the numbers of the scanned cells |
| Cleanup.AssignAnswers | cleanup.py:72-78 | the assignment loop computes the line's answers |
| Cleanup.CleanLine | cleanup.py:51-78 | one line: the OverflowError iff a cell its branch scans is an infinity (an infinite float in either branch, an infinite text in the Claude branch); otherwise the answers of its numbers |
| Cleanup.CleanedRow | cleanup.py:42-78 | a cleaned line keeps its `Model` and `Iteration` cells and has seventeen answers |
| Cleanup.Cleaned | cleanup.py:33-86 | a written table has one line per input line, seventeen answers each, all within `Int64`; an infinite scanned cell in either branch makes it raise instead (`CleanedKeepsRows`, `InfinityAborts`) |
| Cleanup.CleanRows | cleanup.py:42-78 | the row loop raises iff some line holds an infinity in a cell its branch scans (an infinite float in either branch, an infinite text in the Claude branch); otherwise it computes the cleaned lines |
| Cleanup.ConvertColumns | cleanup.py:80-82 | the conversion to `Int64` succeeds iff every answer fits |
| Cleanup.CleanCsv | cleanup.py:33-86 | the column lookup, the row loop and the `Int64` conversion compute `Cleaned` |
| Cleanup.CleanedKeepsRows | cleanup.py:38-86 | the KeyError iff a `Model` or `Iteration` column is missing; given both, the OverflowError of the row loop iff some line holds an infinity in a cell its branch scans (an infinite float in either branch, an infinite text in the Claude branch), and a written table iff there is none and every answer fits `Int64`; that table has one line per input line with its `Model` and `Iteration` cells and seventeen answers |
| Cleanup.InfinityAborts | cleanup.py:15-16 | an infinity in a cell its line's branch scans (an infinite float in either branch, `int(float(...))` overflowing on a text in the Claude branch) makes `clean_csv` raise, whatever the other lines hold |
| Cleanup.OversizedAnswerAborts | cleanup.py:80-82 | in a table with no infinite float and no line read the Claude way, a line whose answers lie beyond `Int64` makes the conversion raise, so nothing is written |
| Cleanup.NumbersGrow | cleanup.py:56-70 | the numbers found grow by prefix as columns are scanned, at most one per column |
| Cleanup.NumbersOfScanned | cleanup.py:66-70 | when every scanned cell yields a number, the numbers are exactly those, in column order |
| Cleanup.ReadBackNumber | cleanup.py:9-31 | a written text read as an integer or as text yields its first run of digits; read as a float it yields `int(float(text))`, and it is an infinity iff that overflows (`1e3` gives 1 as text, 1000 as a float) |
| Cleanup.NumeralNotMarker | cleanup.py:11-12 | no numeral is a missing-value marker |
| Cleanup.WrittenAnswerYields | cleanup.py:9-31 | a non-negative answer written as a numeral yields itself back, read as an integer, a float or text, when `float()` reads it exactly |
| Cleanup.WrittenCellsYield | cleanup.py:66-70 | each answer cell of a written line yields the answer written in it |
| Cleanup.AnswersOfScanned | cleanup.py:66-78 | a line whose seventeen cells after the first two yield numbers gets those numbers as its answers |
| Cleanup.CleanWrittenRow | cleanup.py:50-78 | cleaning a line that file_processor.py wrote, for a model not read the Claude way, gives back its seventeen answers, when `float()` reads each exactly |
| Cleanup.ClaudeNarrowRowUnanswered | cleanup.py:56-64 | a line read the Claude way with at most nineteen columns never gets answers |
| Cleanup.ClaudeResultsRowUnanswered | cleanup.py:56-64 | nor does a line of the current results file, when its last two cells do not convert |
| Legacy.SplitFromCount | main.py:39 | `split` gives one piece more than there are separators |
| Legacy.AfterLabel | main.py:39 | what `split('. ', 1)[-1]` keeps is a suffix of the line |
| Legacy.ParseScores | main.py:32-39 | one entry per line of the stripped reply |
| Legacy.ParseScoresLines | main.py:32-39 | one entry per line of the stripped reply, none with white space at either end |
| Legacy.AfterLabelDropsLabel | main.py:39 | the first `. ` after a label of digits ends the label, and what follows is kept |
| Legacy.ParseNumbered | main.py:32-39 | one-line answers numbered from 1 parse back into exactly those answers |
| Legacy.ReplyRowNumbered | main.py:208-215 | such a reply gives a row with the first seventeen answers, or all when there are fewer |
| Legacy.ReplyRow | main.py:208-213 | the row of the call's model and trial holds the first `min(17, n)` of the `n` parsed entries |
| Legacy.RecordLayout | main.py:241-249 | every line is nineteen cells wide, with the row's answers under their questions |
| Legacy.RecordIsNotHeader | main.py:241-249 | no row's line reads like the header |
| Legacy.ResultsHeaderOnce | main.py:237-249 | however many runs append to one results file, the header is written once, on the first line |
| Legacy.SubmittedPairs | main.py:197-204 | a listed model submits every trial of the round with its future; an unlisted one nothing |
| Legacy.CollectedSkips | main.py:206-218 | a trial none of whose futures replies is not marked |
| Legacy.CollectedBound | main.py:206-218 | only trials with futures are marked |
| Legacy.RoundMarks | main.py:190-218 | a round completes only trials of `range(100)`, and not one whose future does not reply |
| Legacy.RunMarks | main.py:190-228 | every completed trial is in `range(100)`, and a trial that never replies is never completed |
| Legacy.NeverEnds | main.py:190-228 | a trial that never gets a reply keeps the loop running for ever |
| Legacy.CollectedMatches | main.py:206-218 | the future loop keeps one row per completed trial |
| Legacy.RoundMatches | main.py:190-218 | a round keeps one row per completed trial |
| Legacy.RunMatches | main.py:190-228 | after any number of rounds, `results` holds exactly one row per completed trial, for the call's model, with at most seventeen answers |
| Legacy.StepsAgree | main.py:190-228 | two loops whose passes agree on completed sets agree after any number of passes |
| Legacy.CollectedAgree | main.py:206-218 | over futures that all reply, this loop and the one in file_processor.py complete the same trials |
| Legacy.RoundAgrees | main.py:190-218 | a round in which every future replies completes what a round of file_processor.py with the same parameters completes |
| Legacy.AllRepliesFinish | main.py:190-228 | when every future replies, the loop ends after exactly seven rounds, as the one in file_processor.py does |
| Legacy.UnlistedNeverEnds | main.py:197-204 | a model in no provider list completes nothing and the loop never ends |
| Legacy.FinishedAll | main.py:190 | a finished loop has completed every trial of `range(100)` |
| Legacy.SubmitRound | main.py:197-204 | the submit loop builds exactly the round's futures |
| Legacy.MakeRow | main.py:208-215 | the row built from a reply: its first seventeen parsed entries |
| Legacy.Enumerated | main.py:212-213 | the `enumerate` loop stores every entry under its question, and no other |
| Legacy.CollectOne | main.py:206-218 | a reply appends its row and marks its trial; None and an exception leave both alone |
| Legacy.CollectRound | main.py:206-218 | the loop over a round's futures computes the round's collection |
| Legacy.PlayRound | main.py:191-218 | one pass of the `while` body computes one round |
| Legacy.RunRounds | main.py:190-228 | the `while` loop stops at the first finished round or at the bound |
| Legacy.LoopOutcome | main.py:190-228 | when the loop stops: one row per completed trial; all trials done if finished; never finished if a trial never replies or the model is unlisted; seven rounds if every future replies |
| Legacy.ProcessFile | main.py:175-258 | as `RunRounds`; when the loop ends, the sorted rows are appended, and otherwise the file is left alone |
| Keys.NextIndex | main.py:134 | the next key is in range, and the first again only after the last |
| Keys.ScoreCall | main.py:138-173 | the key index only grows and stays in range |
| Keys.ScoreCallKeys | main.py:162-173 | `get_openai_score` stops at the first key whose request does not fail for quota, or at the last; every key passed over had no quota left |
| Keys.RetryKeys | main.py:270-286 | along `retry_request` the index only grows; what it raises is a quota error of the last key; it gives up only after a rate-limited quota error of the last key |
| Keys.Retry | main.py:270-286 | along `retry_request` the key index stays in range and never decreases |
| Keys.Handle | main.py:274-285 | handling one attempt's answer keeps the key index in range and never decreases it |
| Keys.RetryNeverSwitches | main.py:278-282 | the key switch in `retry_request` is never taken |
| Keys.RateLimitNotRetried | main.py:162-173 | a request failing with any error that is not a quota error, rate limits included, ends `retry_request` at once with None |
| Keys.RateLimitedOnceGivesNone | main.py:270-286 | a request rate-limited once and then answered makes `retry_request` return None |
| Keys.ScoreCallFixed | main.py:138-173 | the corrected `get_openai_score` also keeps the index in range and growing |
| Keys.ScoreCallFixedKeys | main.py:162-173 | corrected, it passes over only keys without quota and raises the error of the request it stopped at: a quota error only at the last key, otherwise a rate-limit error |
| Keys.RetryFixedKeys | main.py:270-286 | corrected, the index only grows; what is raised is a quota error of the last key; it gives up only after a rate-limited last attempt |
| Keys.RetryFixed | main.py:270-286 | corrected, the key index stays in range and never decreases |
| Keys.HandleFixed | main.py:274-285 | corrected, handling one attempt's answer keeps the key index in range and never decreases it |
| Keys.RetryFixedWaitsOut | main.py:275-277 | corrected, requests rate-limited before one that succeeds within `max_retries` return that reply, with the same key |
| Keys.RateLimitedOnceFixed | main.py:270-286 | corrected, the example returns its second attempt's reply |
| Keys.ScoreCallFixedAgrees | main.py:162-173 | the correction changes nothing for requests that do not fail with a rate-limit error |
| Keys.KeyRing.constructor | main.py:17-30 | the first key is in use |
| Keys.KeyRing.SwitchKey | main.py:131-136 | the next key modulo the number of keys, and a client built with it |
| Keys.KeyRing.GetOpenAIScore | main.py:138-173 | the corrected `get_openai_score` on the shared key state |
| Keys.KeyRing.RetryRequest | main.py:270-286 | the corrected `retry_request` on the shared key state |
| Keys.KeyRing.Attempt | main.py:272-285 | one pass of the retry loop: the answer that ends it, or the next attempt after waiting out a rate limit or switching to the next key, as the corrected loop goes on |

## Left out

- I/O: reading the resume files, the provider clients and their request bodies, the
  output directory and the `os.path` calls. The results file is a `CsvOutput.ResultFile`
  object: whether it exists, and its lines.
- CSV quoting and escaping: a line is modelled as its list of cell texts.
- The provider calls are not modelled. A future's outcome is the parameter
  `dispatch(round, trial)`, and an OpenAI request's result is the parameter
  `call(attempt, key)`.
- The Mistral and Claude retry loops of main.py, and the `api_clients` module that
  file_processor.py imports, are not part of this model.
- The configuration module is not part of this model. The answer count, the scales,
  `batch_size` and `iterations_per_file` are parameters; the scales come from the
  prompt text in prompts.py.
- Concurrency: the thread pool, the CSV write lock and the races on the global key
  index. Futures are collected in submission order; the global key state is one
  `Keys.KeyRing` object.
- Sleeps, logging, printing and the elapsed-time reports.
- `json.loads` is a parameter (`decoded`). The JSON value has no floats, so `int(x)` of
  a float is not modelled.
- The regular expressions `\d`, `\b` and `\w`, and `upper()`/`lower()`, are modelled on
  ASCII only. `\s` and `strip()` use Python's white-space characters.
- `str(v)` of a decoded JSON value renders strings inside lists and objects
  single-quoted, without Python's escaping of quotes and backslashes.
- FileProcessor.ProcessFile: the loop is run for at most `maxRounds` rounds, because as
  written it need not end. When it does not end within them, nothing is written.
- Legacy.ProcessFile: the same bound applies, for the same reason.
- Legacy.ProcessFile: the row dictionary is modelled as the model, the trial and the
  list of answers. `writerow` puts the answers under `Q1`.. in order and leaves the
  remaining question cells empty.
- Sorting.SortBySortedPermutation: proves sorted and permutation, not stability. The
  keys sorted on are distinct trial numbers, so stability does not matter here.
- FileProcessor.RecordRoundTrip: lines are read back with a numeral reader that does
  not strip white space. `str` of an integer writes none.
- Cleanup.CleanCsv: the pandas dtype a CSV cell is read as is a relation, `ReadsAs`.
  `int(float(x))` on the Claude path is the parameter `floatOf`, which also says what a
  text read into a `float64` column becomes. Columns with duplicate names are not
  modelled.
- Cleanup.CleanCsv: the exceptions `clean_csv` can raise on a table already read are
  the error of a `Result`: the `KeyError` of a missing column, the `OverflowError` of
  `int()` on an infinite float cell (either branch) or of `int(float(...))` on a text
  reading as an infinity (Claude branch), and the error of `astype('Int64')` on an answer
  outside its range. Which exception class pandas raises for the last is not modelled.
- Cleanup.ReadBackNumber: a float cell holds what `int(float(...))`, the parameter
  `floatOf`, makes of its text. pandas' own float parser may round a text beyond 2^53
  differently from Python's `float()`; that difference is not modelled.
- Cleanup.IsClaude: `str()` of a float `Model` cell is written as its integral part
  or `inf`, not Python's exact spelling; neither ever holds `claude`.
- Cleanup.WrittenAnswerYields: pandas reads a column of `True`/`False` texts as
  booleans, and `int(True)` is 1; `ReadsAs` reads such texts as text only. The drivers
  never write booleans into answer columns.
- Cleanup.CellNumber: in the Claude branch `int(float(n))` of an integer cell beyond
  2^53 rounds it to a double; the model keeps the integer exact.
- Json.IntOfString: Python's `int()` also accepts non-ASCII decimal digits; the model
  refuses them.
- The `main` functions of cleanup.py and main.py, which loop over directories and files,
  are not part of this model.
- An `OpenAIError` is modelled with its text and an `http_status` field, which
  main.py:275 reads. In the openai library from version 1.0 on, whose `OpenAI` client
  main.py builds, the error has no such attribute, so that line would itself raise an
  `AttributeError`. The model assumes the attribute exists.
- Keys.KeyRing.GetOpenAIScore: models the corrected behaviour, not the code as written.
  The code as written is `Keys.ScoreCall`; see Findings.
- Keys.KeyRing.RetryRequest: models the corrected behaviour, not the code as written.
  The code as written is `Keys.Retry`; see Findings.

## Findings

| source | as written | input that shows it | evidently intended | confidence | as-written member | corrected member |
|---|---|---|---|---|---|---|
| main.py:162-173 | `get_openai_score` catches every `OpenAIError` that is not a quota error and returns None, so the rate-limit branch of `retry_request` (main.py:275-277) never sees a 429 that is not a quota error, and never waits for one | two keys, ten attempts; the first request fails with a 429 "rate limit" error that is not a quota error, the next returns `1. 5`: `retry_request` returns None | the 429 reaches `retry_request`, which waits and tries again, returning `1. 5` | not executed | Keys.RateLimitedOnceGivesNone | Keys.RetryFixedWaitsOut |
