# Dialogue preprocessing and repair-annotation checks, modelled in Dafny

This project models the deterministic core of a research pipeline for
chatbot language-learning transcripts. The pipeline works in three stages.

1. **Turn extraction.** `DialogueParser` in `scripts/dialogue_parser.py` turns a week's transcript
   text into numbered `{turn, speaker, text}` records.
   - `clean_text` is `Normalizer`.
   - The labelled extractors for weeks 1–3 are `LabelledParser`.
   - The unlabelled week-4 extractor is `UnlabelledParser`.
   - `split_into_tasks`, which cuts a week into at most three task spans, is `TaskSplitter`.
   - `parse_dialogue` is `DialogueDispatch`.
   - `scripts/parsers.py` is `Parsers`.
2. **Preprocessing around the extractors.**
   - `scripts/preprocessing_pipeline.py`: choosing one source document per student and week is
     `Discovery`; label normalisation, skip-section filtering, the up-to-date test and dialogue
     metadata are `Pipeline`; the per-document decisions of `run_pipeline` are `PipelineRun`.
     As written, `parse_tasks_for_document` and the save call pass keyword arguments the parser
     does not declare, so both raise `TypeError` (see "## Findings"). `PipelineRun`'s main loop
     therefore runs with the corrected calls. The loop as written is `PipelineRun.RunFromAsWritten`:
     it ends at the first document that reaches task splitting and saves no dialogue.
   - `run_preprocessing.py` renumbers and chunks turn lists in place; that is `RunPreprocessing`.
   - `scripts/validate_preprocessing.py` checks the saved dialogue files; that is
     `ValidatePreprocessing`.
3. **Repair annotations** (episodes of conversational repair, with their turn indices,
   initiation `LI`/`BI` and resolution `R`/`U-A`/`U-P`).
   - `TaskClassifier` names a dialogue's scenario.
   - `RepairDetector` holds the annotation schema check and the bracket scan that digs a JSON
     array out of a model reply.
   - `ValidateRepairResults` and `CrossValidateRepairs` hold the validators.
   - `FixRepairIssues` drops bad indices and rewrites ids.
   - `CalibrateRepairDetection` matches predicted against known annotations.
   - `CreateReviewDocuments` builds the merged review record and the printable dialogue text.

**Shared modules.**
- `Wrappers` holds `Option` and `Result`.
- `Text` holds the Python string methods. For code points up to U+00FF, characters are classified as Python's `isspace`, `isupper` and `islower` and the regex classes `\s` and `\d` classify them. Every character above U+00FF counts as uncased, not a digit and not whitespace.
- `Dialogue` holds the turn record.
- `Repairs` holds JSON values, repair dicts and the `RepairObj` class.

**How the model is built.**
- Each regular expression is a matcher written for that one pattern.
- Source loops that append or update in place are methods with loop invariants. Each is proved
  equal to a specification function, and the functions carry the lemmas.
- Dicts that the source shares between two lists are objects, so an update made through one
  list shows in the other. This covers turn dicts in `run_preprocessing.py` and repair dicts in
  `fix_repair_file`.
- File contents, directory listings, modification times and `json.loads` are inputs.

Where the repository's documentation and its code disagree, the model follows the code. The
documentation's end-to-end example expects a final `You said:` turn with no newline after it to
be emitted; the code drops it (`LabelledParser.UnterminatedTurnDropped`).

## Model

| member | source | states |
|---|---|---|
| Repairs.IndicesOf | scripts/fix_repair_issues.py:44-45 | the integers `for t in repair.get('turn_indices', [])` visits when each is compared with an integer: none for a missing key or an empty string or dict, the list's integers in order for a list of integers, and `TypeError` exactly otherwise |
| Repairs.MaxTurn | scripts/fix_repair_issues.py:38 | `max([t.get('turn', 0) for t in turns], default=0)`: at least every turn number (a missing one read as 0), equal to one of them, and 0 for no turns |
| Dialogue.NumberSpec | scripts/dialogue_parser.py:38-73 | the running `turn_num` counter keeps every emitted (speaker, text) pair in order and numbers them 1..n with no gap |
| Dialogue.NumberSnoc | scripts/dialogue_parser.py:64-70 | appending one pair appends one turn numbered one past the others |
| Dialogue.ToObjects | scripts/dialogue_parser.py:64-68 | the dicts a parser returns are new, distinct, one per turn, holding exactly the turns |
| DialogueDispatch.ParseDialogue | scripts/dialogue_parser.py:601-621 | returns what the dispatch definition gives: the English extractor for 'week1'/'week2', the Portuguese one for 'week3', the unlabelled one for 'week4' |
| DialogueDispatch.DialogueForSpec | scripts/dialogue_parser.py:614-621 | exactly the four known formats parse, whatever they return is numbered 1..n, and any other format raises `ValueError` |
| Parsers.ParseWordDocumentWithLabels | scripts/parsers.py:9-27 | returns the turns of the English extractor for 'week1_week2', of the Portuguese one for 'week3', or `ValueError` |
| Parsers.WordTurnsSpec | scripts/parsers.py:22-27 | exactly the two labelled formats parse, numbered 1..n; anything else raises `ValueError` |
| Parsers.ParsePdfWithoutLabels | scripts/parsers.py:30-44 | exactly the turns of the unlabelled extractor, numbered 1..n |
| Parsers.DocumentTurnsSpec | scripts/parsers.py:47-84 | with 'auto', a `.docx` name (any case) is read with the English labels and a `.pdf` with the unlabelled extractor; `ValueError` arises exactly for a suffix auto-detection cannot place, an existing file whose suffix the extractor refuses (scripts/document_extractor.py:138-145), or an unknown explicit format once the text is extracted; extraction fails exactly for a missing file or a reader failure on a supported suffix; the turns are numbered 1..n |
| Parsers.TagStudent | scripts/parsers.py:86-88 | every turn dict gains `student_id`, and nothing else in the dicts changes |
| Parsers.ProcessStudentDocument | scripts/parsers.py:47-91 | fails exactly when the document turns fail, with the same error; otherwise returns new distinct dicts holding those turns, each tagged with the student id |
| Text.StripSpec | scripts/dialogue_parser.py:31 | `str.strip` leaves no whitespace at either end and never lengthens the text |
| Text.StripAllSpace | scripts/dialogue_parser.py:31 | `strip` gives "" exactly for an all-whitespace text |
| Text.JoinSplitOn | scripts/dialogue_parser.py:134 | splitting on one character and joining with it again gives back the text |
| Normalizer.CollapseSpaceSpec | scripts/dialogue_parser.py:29 | after `re.sub(r'\s+', ' ', text)` the plain space is the only whitespace left, and an all-whitespace text becomes "" or one space |
| Normalizer.TimeMatch | scripts/dialogue_parser.py:33 | a clock-time match starting at `i` ends at least four characters later and within the text |
| Normalizer.RemoveTimesFromSpaces | scripts/dialogue_parser.py:33 | deleting clock times keeps the other characters, so it brings in no whitespace but the space |
| Normalizer.CleanTextShape | scripts/dialogue_parser.py:26-34 | `clean_text` leaves no surrounding whitespace, no whitespace but the space (so no line break), is never longer than its input, and gives "" for an all-whitespace input |
| Normalizer.CleanNoSpace | scripts/dialogue_parser.py:26-34 | on a text without whitespace, cleaning only deletes clock times and strips |
| Normalizer.CleanFirst | scripts/dialogue_parser.py:33 | `clean_text("5:1:1122")` is "5:22": deleting the time "1:11" joins "5:" and "22" |
| Normalizer.CleanSecond | scripts/dialogue_parser.py:33 | `clean_text("5:22")` is "" |
| Normalizer.CleanNotIdempotent | scripts/dialogue_parser.py:26-34 | cleaning a cleaned text can change it again, so `clean_text` is not idempotent |
| LabelledParser.LabelAt | scripts/dialogue_parser.py:43-46 | a label matched case-insensitively at `p` ends after `p` and inside the text |
| LabelledParser.FirstEnd | scripts/dialogue_parser.py:44 | the lazy `(.+?)` stops at the first later position where the lookahead holds |
| LabelledParser.MatchAt | scripts/dialogue_parser.py:43-48 | a match at the start of a text consumes at least one character and stays inside it |
| LabelledParser.CaptureTurn | scripts/dialogue_parser.py:50-71 | one iteration over a match yields the speaker named by the stripped label (learner first) and the cleaned text, or nothing for an unknown label or empty text |
| LabelledParser.ParseLabelled | scripts/dialogue_parser.py:38-73 | the loop over the matches returns the numbered turns `LabelledTurns` defines |
| LabelledParser.ParseWeek1Week2 | scripts/dialogue_parser.py:36-73 | `parse_week1_week2` is the shared extractor with the English labels and both colons |
| LabelledParser.ParseWeek3 | scripts/dialogue_parser.py:75-111 | `parse_week3` is the shared extractor with the Portuguese labels |
| LabelledParser.TurnOfClean | scripts/dialogue_parser.py:63-65 | a turn a match yields has a non-empty cleaned text |
| LabelledParser.EmittedClean | scripts/dialogue_parser.py:50-71 | the loop yields at most one turn per match, each with a non-empty single-spaced text |
| LabelledParser.LabelledTurnsShape | scripts/dialogue_parser.py:36-73 | the turns are numbered 1..n, at most one per match, each text non-empty, single-spaced and free of line breaks |
| LabelledParser.NoLineBreakNoMatch | scripts/dialogue_parser.py:44 | without a line break the lookahead never holds, so `finditer` finds nothing |
| LabelledParser.NoLineBreakNoTurns | scripts/dialogue_parser.py:36-73 | a text without a line break yields no turns |
| LabelledParser.EnglishWellFormed | scripts/dialogue_parser.py:44 | the English labels start with letters and the learner label cannot be read inside the bot label |
| LabelledParser.PortugueseWellFormed | scripts/dialogue_parser.py:82 | the same for the Portuguese labels |
| LabelledParser.ScanRender | scripts/dialogue_parser.py:43-48 | each rendered line is found as exactly one match, in order |
| LabelledParser.SpeakerOfLine | scripts/dialogue_parser.py:55-60 | the stripped label names a speaker exactly when it is spelled in the pattern's case; any other case is matched but skipped |
| LabelledParser.RenderParses | scripts/dialogue_parser.py:36-73 | rendering lines and extracting them gives, numbered from 1, each line whose label is spelled exactly, with its cleaned content |
| LabelledParser.UnterminatedTurnDropped | scripts/dialogue_parser.py:44 | a final turn with no line break after it is never matched and is dropped |
| LabelledParser.RoundTrip | scripts/dialogue_parser.py:36-73 | lines with exact labels and non-empty content come back as turns 1..n with their speakers and cleaned contents |
| LabelledParser.ExpectedExact | scripts/dialogue_parser.py:65-71 | when every line is exact, each line gives its own turn |
| UnlabelledParser.NonBlankStripped | scripts/dialogue_parser.py:134 | every line kept by the comprehension is non-empty and already stripped |
| UnlabelledParser.SaveBlock | scripts/dialogue_parser.py:145-148 | saving the open block appends its joined text exactly when that text is longer than 5 characters |
| UnlabelledParser.KeepBlocksSnoc | scripts/dialogue_parser.py:179-182 | closing one more group appends its text iff it is longer than 5 characters |
| UnlabelledParser.BuildBlocks | scripts/dialogue_parser.py:136-189 | the line loop and the final save give the long texts of the continuation groups, in order |
| UnlabelledParser.AssignSpeakers | scripts/dialogue_parser.py:193-206 | the block loop returns the numbered turns `Assign` defines |
| UnlabelledParser.ParseWeek4Pdf | scripts/dialogue_parser.py:113-208 | `parse_week4_pdf` returns the turns `UnlabelledTurns` defines; the colour data is ignored |
| UnlabelledParser.CloseSpec | scripts/dialogue_parser.py:186-189 | closing the open group keeps every group a continuation chain and loses no line |
| UnlabelledParser.GroupLinesSpec | scripts/dialogue_parser.py:139-183 | the loop's state is always continuation chains covering exactly the non-header lines |
| UnlabelledParser.GroupsPartition | scripts/dialogue_parser.py:136-189 | every group is a non-empty chain in which each line continues the one before, and the groups together are the non-header lines in their order |
| UnlabelledParser.GroupLinesAfterClose | scripts/dialogue_parser.py:143-150 | lines after a point where no block is open are grouped as if from the start |
| UnlabelledParser.GroupLinesCongruent | scripts/dialogue_parser.py:139-183 | the grouping depends only on the loop's state, not on how it was reached |
| UnlabelledParser.HeaderSplits | scripts/dialogue_parser.py:143-150 | a `Week4`/`Task N:` line closes the open block and is dropped, so no block spans it |
| UnlabelledParser.CapsLineIgnored | scripts/dialogue_parser.py:153-154 | an all-caps line under 50 characters is dropped without closing the block |
| UnlabelledParser.KeepBlocksSpec | scripts/dialogue_parser.py:146-148 | every kept block is longer than 5 characters and is the text of one group |
| UnlabelledParser.LongIndicesSpec | scripts/dialogue_parser.py:194-196 | the indices kept are in range, strictly increasing, and exactly those of blocks that clean to 5 or more characters |
| UnlabelledParser.AssignSpec | scripts/dialogue_parser.py:193-206 | the turn loop keeps exactly the long blocks in order, each with its cleaned text and the speaker of its block index (learner even, bot odd) |
| UnlabelledParser.AssignTexts | scripts/dialogue_parser.py:194-196 | every kept text is a `clean_text` result of at least 5 characters |
| UnlabelledParser.UnlabelledTurnsShape | scripts/dialogue_parser.py:113-208 | turns are numbered 1..n and every text is cleaned, at least 5 characters long and without surrounding whitespace |
| UnlabelledParser.SkippedBlockRepeatsSpeaker | scripts/dialogue_parser.py:195-199 | a skipped block between two kept ones gives two consecutive learner turns: alternation follows block indices, not turns |
| UnlabelledParser.ClockBlockCleansAway | scripts/dialogue_parser.py:181-196 | the block "12:30 PM" passes the length filter but cleans to "" and is skipped |
| TaskSplitter.TaskNameShape | scripts/dialogue_parser.py:506 | `f"T{n}"` is "T" followed by decimal digits |
| TaskSplitter.PrimaryAt | scripts/dialogue_parser.py:459-462 | a primary task marker found at `p` ends just after a line break |
| TaskSplitter.MarkerTail | scripts/dialogue_parser.py:460 | after the keyword, the number, the optional `:`/`.` and `\s*\n` end on a line break |
| TaskSplitter.PrimaryMarkers | scripts/dialogue_parser.py:468 | `finditer` gives markers in text order that do not overlap |
| TaskSplitter.AltFrom | scripts/dialogue_parser.py:533-537 | the looser markers' starts are strictly increasing and inside the text |
| TaskSplitter.FewBounds | scripts/dialogue_parser.py:524-526 | each span with one or two markers lies inside the text |
| TaskSplitter.ThirdBounds | scripts/dialogue_parser.py:564-568 | each of the three chunks lies inside the text |
| TaskSplitter.KeepLongSnoc | scripts/dialogue_parser.py:505-506 | one more candidate is appended exactly when its text is longer than the minimum |
| TaskSplitter.SplitMany | scripts/dialogue_parser.py:470-516 | the three-or-more branch returns one span per marker, then the final span, as `ManyTasks` defines |
| TaskSplitter.SplitFew | scripts/dialogue_parser.py:518-529 | the one-or-two branch returns the spans `FewTasks` defines |
| TaskSplitter.SplitAlt | scripts/dialogue_parser.py:539-546 | the looser-marker branch returns the spans `AltTasks` defines, named by position |
| TaskSplitter.NameSections | scripts/dialogue_parser.py:553-560 | sections are named T1, T2, ... in order |
| TaskSplitter.SplitThirds | scripts/dialogue_parser.py:561-571 | the last resort returns the three chunks `ThirdTasks` defines |
| TaskSplitter.SplitIntoTasks | scripts/dialogue_parser.py:448-582 | `split_into_tasks` returns `SplitTasks(text)`, including its TypeError; the week number is unused |
| TaskSplitter.KeepLongSpec | scripts/dialogue_parser.py:505-506 | the length filter keeps exactly the candidates longer than the minimum: each kept one is a candidate, and every long one is kept |
| TaskSplitter.KeepLongGood | scripts/dialogue_parser.py:505-506 | kept candidates with task names are good tasks |
| TaskSplitter.LongStrippedSpec | scripts/dialogue_parser.py:551 | every section is a stripped piece of more than 100 characters |
| TaskSplitter.NamedGood | scripts/dialogue_parser.py:555-560 | named sections are good tasks |
| TaskSplitter.TruncateGood | scripts/dialogue_parser.py:574-576 | truncation leaves at most three tasks and keeps them good |
| TaskSplitter.ManyTasksGood | scripts/dialogue_parser.py:505-516 | every task of the three-or-more branch has a task name and a text longer than 50 characters |
| TaskSplitter.FewTasksGood | scripts/dialogue_parser.py:528-529 | the same for the one-or-two branch |
| TaskSplitter.AltTasksGood | scripts/dialogue_parser.py:545-546 | the same for the looser-marker branch |
| TaskSplitter.ThirdTasksGood | scripts/dialogue_parser.py:570-571 | the same for the three-chunk fallback |
| TaskSplitter.SplitTasksBounds | scripts/dialogue_parser.py:448-582 | at most three tasks, each named "T<digits>" with a text longer than 50 characters; the paragraph fallback's texts are longer than 100 |
| TaskSplitter.SplitTasksError | scripts/dialogue_parser.py:518-520 | the call raises TypeError exactly when there are one or two primary markers and one is a worded number, which `int(m.group(1))` cannot take |
| TaskSplitter.ManySpansLabelledLate | scripts/dialogue_parser.py:484-516 | with three or more markers, the span labelled with marker `i`'s number runs from marker `i - 1` to marker `i` (it holds the previous task's text), and the final span is always "T3" |
| TaskSplitter.FewSpansOverlap | scripts/dialogue_parser.py:523-526 | with two markers both spans hold the whole text between them: neighbouring spans overlap |
| TaskSplitter.ThirdsTile | scripts/dialogue_parser.py:564-568 | the three chunks tile the text, with sizes `n // 3`, `n // 3` and the rest |
| TaskSplitter.PiecesNoSeparator | scripts/dialogue_parser.py:550 | with no separator `re.split` gives the whole rest as one piece |
| TaskSplitter.OneSection | scripts/dialogue_parser.py:550-551 | with no separator, a text over 100 characters once stripped is one section |
| TaskSplitter.NoBreakOneSpan | scripts/dialogue_parser.py:548-560 | a text without markers or breaks and over 100 characters once stripped comes back as the one task T1 |
| TaskSplitter.MidLineMarker | scripts/dialogue_parser.py:459-462 | a marker need not start its line ("See Task 2:\n" has one at 4) |
| TaskSplitter.MarkerNeedsLineBreak | scripts/dialogue_parser.py:460 | "Task 1: hi" is not a primary marker: the pattern needs a line break |
| Discovery.DocMatchAt | scripts/preprocessing_pipeline.py:31 | a match of `#(\d+)\.\s*Week\s*(\d+)` gives two non-empty digit groups |
| Discovery.DocSearch | scripts/preprocessing_pipeline.py:72 | `search` finds the leftmost match, whose groups are non-empty digit strings |
| Discovery.Candidates | scripts/preprocessing_pipeline.py:65-96 | one optional record per listing entry |
| Discovery.InsertPerm | scripts/preprocessing_pipeline.py:114-117 | insertion keeps every record and adds the new one |
| Discovery.InsertSorted | scripts/preprocessing_pipeline.py:114-117 | insertion into a sorted list keeps it sorted |
| Discovery.SortByIdsSpec | scripts/preprocessing_pipeline.py:114-117 | sorting by `(int(student_id), int(week))` is a permutation and its result is sorted |
| Discovery.SelectSnoc | scripts/preprocessing_pipeline.py:65-111 | the dictionary after one more file is the previous one updated by that file's record |
| Discovery.ConsiderFile | scripts/preprocessing_pipeline.py:66-111 | one pass of the loop: skip non-files, other suffixes and unmatched names; otherwise insert, or replace DOCX over PDF or a strictly newer file of the same suffix |
| Discovery.DiscoverDocuments | scripts/preprocessing_pipeline.py:57-118 | `discover_documents` returns the sorted selection `Discovered` defines |
| Discovery.CandidateShape | scripts/preprocessing_pipeline.py:68-96 | a record has a supported suffix, numeric ids, a configured or default label set, and the file's path and mtime |
| Discovery.ConsiderSame | scripts/preprocessing_pipeline.py:98-111 | for the record's own key the dictionary gains it, or replaces the kept one exactly when DOCX beats PDF or it is strictly newer |
| Discovery.ConsiderOther | scripts/preprocessing_pipeline.py:98-111 | other keys are untouched |
| Discovery.KeepUnique | scripts/preprocessing_pipeline.py:59 | the dictionary never holds two records for one (student, week) |
| Discovery.KeepFrom | scripts/preprocessing_pipeline.py:87-111 | every kept record is one of the candidates |
| Discovery.SelectInvariant | scripts/preprocessing_pipeline.py:57-111 | one record per (student, week), with numeric ids, a known label set and a supported suffix |
| Discovery.KeepStep | scripts/preprocessing_pipeline.py:98-111 | how the record kept for a key changes with one more candidate |
| Discovery.KeepCovers | scripts/preprocessing_pipeline.py:98-102 | a key has a record exactly when some candidate names it |
| Discovery.KeepDocx | scripts/preprocessing_pipeline.py:104-106 | once a DOCX has been seen for a key, the kept record is a DOCX |
| Discovery.KeepNewest | scripts/preprocessing_pipeline.py:107-111 | the kept record is a candidate for its key and no candidate with its suffix is newer (ties keep the earlier file) |
| Discovery.DiscoveredSpec | scripts/preprocessing_pipeline.py:113-118 | the documents come out ordered by numeric (student, week), each selected record exactly once |
| Pipeline.ReplaceLabels | scripts/preprocessing_pipeline.py:124-130 | `replace_labels` gives `ReplaceAll`: each non-empty label in turn, matched case-insensitively, is replaced |
| Pipeline.NormalizeLabels | scripts/preprocessing_pipeline.py:121-134 | the learner labels are replaced by "You said:", then the bot labels by the partner label |
| Pipeline.ReplaceFromNoMatch | scripts/preprocessing_pipeline.py:128-129 | with no occurrence of the label the rest of the text is returned unchanged |
| Pipeline.ReplaceFromCaseOnly | scripts/preprocessing_pipeline.py:128-129 | replacing a label by one differing only in letter case changes nothing but letter case |
| Pipeline.ReplaceAllNoMatch | scripts/preprocessing_pipeline.py:124-130 | no label of the list in the text: nothing changes |
| Pipeline.NormalizedUnchanged | scripts/preprocessing_pipeline.py:121-134 | a text with no alternate label comes out of `normalize_labels` unchanged |
| Pipeline.EmptyLabelsSkipped | scripts/preprocessing_pipeline.py:126-127 | empty labels are skipped, so a list of them changes nothing |
| Pipeline.AppendLast | scripts/preprocessing_pipeline.py:174 | `removed_sections[-1] += suffix` changes only the last note |
| Pipeline.FilterStep | scripts/preprocessing_pipeline.py:154-177 | one iteration keeps a note open for every section in skip mode |
| Pipeline.FilterSkipSections | scripts/preprocessing_pipeline.py:137-184 | `filter_skip_sections` returns the kept text and notes `FilterSkip` defines |
| Pipeline.FilterKeepsSubseq | scripts/preprocessing_pipeline.py:154-177 | the kept lines are a subsequence of the lines seen |
| Pipeline.FilterRemovedIff | scripts/preprocessing_pipeline.py:154-177 | nothing is removed exactly when no line holds a non-empty keyword, and then every line is kept |
| Pipeline.FilterStepRemoved | scripts/preprocessing_pipeline.py:156-177 | one line leaves the notes empty exactly when they were empty and the line holds no keyword |
| Pipeline.FilterSkipUnchanged | scripts/preprocessing_pipeline.py:137-184 | a text none of whose lines holds a keyword passes through unchanged, with nothing reported |
| Pipeline.FilterSkipReports | scripts/preprocessing_pipeline.py:156-163 | a line holding a keyword is always reported |
| Pipeline.FilterSkipKeepsLines | scripts/preprocessing_pipeline.py:149-183 | the result is the join of a subsequence of the text's lines |
| Pipeline.EmptyKeywordNeverEnds | scripts/preprocessing_pipeline.py:171 | the end test has no guard for an empty keyword, so with "" among the keywords a skipped section runs to the end of the document |
| Pipeline.ShouldSkipSpec | scripts/preprocessing_pipeline.py:194-199 | forcing or a missing output always rebuilds; an output at least as new as its source is kept, and stays kept for any older source |
| Pipeline.ParseTasksAlwaysRaises | scripts/preprocessing_pipeline.py:208-212 | the call as written passes `expected_tasks=`, which `split_into_tasks` does not declare: it raises TypeError for every document |
| Pipeline.ParseTasksIntendedSpec | scripts/preprocessing_pipeline.py:202-218 | the corrected call returns one to three tasks and raises only where the splitter does |
| Pipeline.ParseTasksForDocument | scripts/preprocessing_pipeline.py:202-218 | the corrected function: the split tasks, or the whole text as "T1" when none |
| Pipeline.TurnsForTaskNumbered | scripts/preprocessing_pipeline.py:221-231 | the turns of a task are numbered from 1 |
| Pipeline.ParseTurnsForTask | scripts/preprocessing_pipeline.py:221-231 | the unlabelled parser for a PDF, the English labelled parser otherwise, numbered from 1 |
| Pipeline.ParseComposed | scripts/preprocessing_pipeline.py:239 | an id `S<s>_W<w>_T<n>` of digit strings reads back to its three parts |
| Pipeline.DialogueIdRoundTrip | scripts/preprocessing_pipeline.py:239 | the dialogue id of numeric ids and a task index reads back to them |
| Pipeline.MetadataSpec | scripts/preprocessing_pipeline.py:234-247 | the metadata's numbers are the record's ids read as numbers, and its id names the same dialogue |
| Pipeline.SaveAlwaysRaises | scripts/preprocessing_pipeline.py:409-413 | the save as written passes `metadata=`, which `save_dialogue_json` does not declare: it always raises TypeError |
| Pipeline.SaveIntended | scripts/preprocessing_pipeline.py:409-413 | the intended save writes the turns together with their metadata |
| PipelineRun.ProcessTasks | scripts/preprocessing_pipeline.py:363-424 | the task loop: up-to-date outputs are skipped, tasks with no turns are reported as errors, a dry run saves nothing, otherwise the dialogue is saved and reported, as `TasksRun` defines |
| PipelineRun.ProcessDocument | scripts/preprocessing_pipeline.py:286-424 | one document: filters, extraction failure, the under-50-characters skip, the text written, labels normalised, tasks split and processed, as `DocStep` defines |
| PipelineRun.RaisedStops | scripts/preprocessing_pipeline.py:286-424 | once an exception escapes, the remaining documents change nothing |
| PipelineRun.RunFromSnoc | scripts/preprocessing_pipeline.py:286 | the run after one more document is one more `DocStep` |
| PipelineRun.RunDocuments | scripts/preprocessing_pipeline.py:286-424 | the document loop returns `RunFrom(documents)` |
| PipelineRun.RunPipeline | scripts/preprocessing_pipeline.py:250-434 | `run_pipeline` runs the document loop over the discovered documents |
| PipelineRun.DocStepAsWrittenRaises | scripts/preprocessing_pipeline.py:202-212 | as written, a document that reaches task splitting ends the run with `TypeError` right after its extracted text is written; every other document is handled as in the corrected step |
| PipelineRun.AsWrittenSavesNothing | scripts/preprocessing_pipeline.py:250-434 | as written, the run reports no task processed and writes only text files, never a dialogue |
| PipelineRun.DialoguesSnoc | scripts/preprocessing_pipeline.py:409-422 | a write adds a dialogue exactly when it is a JSON file |
| PipelineRun.TaskStepConsistent | scripts/preprocessing_pipeline.py:363-424 | one task keeps the summary's processed entries and the saved dialogues in step, and raises nothing |
| PipelineRun.TasksRunConsistent | scripts/preprocessing_pipeline.py:363-424 | the same for the whole task loop |
| PipelineRun.DocStepConsistent | scripts/preprocessing_pipeline.py:286-424 | the same for one document |
| PipelineRun.RunConsistent | scripts/preprocessing_pipeline.py:250-434 | throughout the run, each processed entry is backed by a saved dialogue with the same file name and turn count, in order, and every saved dialogue is non-empty, numbered from 1 and carries metadata naming its file |
| PipelineRun.TasksRunKeepsTexts | scripts/preprocessing_pipeline.py:363-424 | the task loop writes no text file |
| PipelineRun.RunTextsHaveContent | scripts/preprocessing_pipeline.py:323-339 | text files are written only for documents with at least 50 characters left after filtering and stripping |
| PipelineRun.DryTasksRun | scripts/preprocessing_pipeline.py:402-407 | in a dry run the task loop writes nothing and reports nothing processed |
| PipelineRun.DryRunSavesNothing | scripts/preprocessing_pipeline.py:402-407 | a dry run saves no dialogue and reports none as processed |
| PipelineRun.SelectedDocs | scripts/preprocessing_pipeline.py:287-290 | every document the filters let through is selected |
| PipelineRun.FiltersOnlySkip | scripts/preprocessing_pipeline.py:287-290 | the student and week filters only skip: running on the selected documents gives the same run |
| PipelineRun.ExtractionFailureReported | scripts/preprocessing_pipeline.py:296-308 | a document whose text cannot be extracted is reported as an error and nothing is written for it |
| PipelineRun.ShortDocumentSkipped | scripts/preprocessing_pipeline.py:323-334 | a document left with under 50 characters is reported as skipped and nothing is written for it |
| RunPreprocessing.FormatTurnsNumbered | run_preprocessing.py:101-109 | whatever a known format parses is numbered 1..n; an unknown format gives no turns |
| RunPreprocessing.ParseFormat | run_preprocessing.py:101-109 | the format dispatch picks the parser the week's format names |
| RunPreprocessing.RenumberedSpec | run_preprocessing.py:147-148 | renumbering numbers from 1, changes no speaker or text, and is a no-op on a list already numbered from 1 |
| RunPreprocessing.Unnumbered | run_preprocessing.py:147-148 | the (speaker, text) pairs of a turn list, one per turn |
| RunPreprocessing.RenumberRange | run_preprocessing.py:170-171 | renumbering a slice sets the dictionaries in it to 1, 2, ... in place and changes no other |
| RunPreprocessing.ChunkBoundsAre | run_preprocessing.py:163-166 | chunk 1 is `[0, s)`, chunk 2 `[s, 2s)`, chunk 3 `[2s, total)` with `s = total // 3` |
| RunPreprocessing.ChunkFilesAll | run_preprocessing.py:164-177 | the three chunk files are the loop's files |
| RunPreprocessing.ChunkPositions | run_preprocessing.py:164-171 | chunk `n` starts where chunk `n - 1` ends and numbers its indices from 1 |
| RunPreprocessing.SaveChunk | run_preprocessing.py:164-177 | one chunk iteration renumbers that chunk's dictionaries in place and saves it |
| RunPreprocessing.SaveChunks | run_preprocessing.py:158-177 | the chunking loop saves the three chunk files and leaves the week's own list renumbered chunk by chunk |
| RunPreprocessing.SaveSpan | run_preprocessing.py:135-154 | one span: parsed afresh, renumbered, saved when it has turns |
| RunPreprocessing.SaveSpans | run_preprocessing.py:133-156 | the spans are parsed and saved in turn |
| RunPreprocessing.SaveWeek | run_preprocessing.py:122-184 | one week of step 4 saves the files `WeekFiles` defines and renumbers the week's list only in the chunking branch |
| RunPreprocessing.SpanFilesGood | run_preprocessing.py:133-156 | every span file is non-empty, numbered 1..n, tagged with the student, named `W<week>_T<1..3>.json`, and holds one span's parse |
| RunPreprocessing.ChunksPartition | run_preprocessing.py:160-177 | the chunks are contiguous and non-empty and together the whole list; the first two hold `total // 3` turns each |
| RunPreprocessing.ChunkFileGood | run_preprocessing.py:164-177 | each chunk file is good |
| RunPreprocessing.ThirdFilesFlatten | run_preprocessing.py:164-177 | the chunk files one after another are the renumbered week |
| RunPreprocessing.ThirdFilesGood | run_preprocessing.py:158-177 | the chunk files are good and hold the week's turns in order |
| RunPreprocessing.ChunkRenumberedKeepsText | run_preprocessing.py:170-171 | renumbering the chunks changes no speaker or text |
| RunPreprocessing.SingleFileGood | run_preprocessing.py:178-183 | the single-file fallback saves the parsed list as it is |
| RunPreprocessing.WeekFilesSpec | run_preprocessing.py:122-184 | step 4 for one week raises (TypeError) only when the week has turns and the splitter raises; otherwise every saved file is good, span files hold their span's parse, and without spans the files hold all the week's turns in order |
| RunPreprocessing.Step4Stops | run_preprocessing.py:122-131 | after an uncaught raise the later weeks change nothing |
| RunPreprocessing.AllObjsSnoc | run_preprocessing.py:114 | the dictionaries of one more week join the set of all dictionaries |
| RunPreprocessing.HeldSnoc | run_preprocessing.py:93-116 | a newly parsed week with new dictionaries joins the lists step 2 builds |
| RunPreprocessing.HeldTail | run_preprocessing.py:122-128 | the first week's dictionaries are its parsed turns and are not shared with later weeks |
| RunPreprocessing.ParsedWeeksSnoc | run_preprocessing.py:93-116 | step 2 after one more document is one more `ParsedStep` |
| RunPreprocessing.ParseOne | run_preprocessing.py:94-114 | one pass of step 2 parses a week with a text and a known format into new dictionaries |
| RunPreprocessing.ParseWeeks | run_preprocessing.py:88-116 | step 2 parses every extracted week into new dictionaries, no two weeks sharing one |
| RunPreprocessing.SaveOneWeek | run_preprocessing.py:122-184 | one pass of step 4 before anything has raised |
| RunPreprocessing.SaveWeeks | run_preprocessing.py:118-184 | step 4 saves each week in order; a raise ends the script |
| RunPreprocessing.Step4Snoc | run_preprocessing.py:122 | step 4 after one more week is one more `Step4Week` |
| RunPreprocessing.RunPreprocessing | run_preprocessing.py:88-184 | the script's files and its final exception are those `ScriptFiles` defines |
| RunPreprocessing.ParsedWeeksNumbered | run_preprocessing.py:93-116 | every parsed week is numbered 1..n and belongs to the document table |
| RunPreprocessing.Step4Good | run_preprocessing.py:118-184 | step 4 raises only TypeError, and every saved file is good for one of its weeks |
| RunPreprocessing.ScriptSpec | run_preprocessing.py:20-184 | the script stops only on a TypeError from the splitter, and every saved file belongs to a week of the table: non-empty, numbered 1..n, tagged with the student and named `W<week>_T<1..3>.json` |
| ValidatePreprocessing.Stem | scripts/validate_preprocessing.py:59 | `Path.stem` is the name without its suffix: stem plus suffix gives back the name |
| ValidatePreprocessing.MatchStem | scripts/validate_preprocessing.py:62 | the three groups of a match are whole runs of digits |
| ValidatePreprocessing.MatchStemSound | scripts/validate_preprocessing.py:62 | a match is a prefix `S{s}_W{w}_T{t}` of the stem whose last digit run is not continued |
| ValidatePreprocessing.MatchStemComposed | scripts/validate_preprocessing.py:62 | conversely, such a prefix is matched with exactly its three groups |
| ValidatePreprocessing.MismatchIf | scripts/validate_preprocessing.py:75-107 | one `metadata_mismatch` error when the check fails, none otherwise |
| ValidatePreprocessing.FilenameIssues | scripts/validate_preprocessing.py:56-109 | one `filename_format` error when the stem lacks the pattern; otherwise at most four `metadata_mismatch` errors, none exactly when student id, week, task and dialogue id all agree with the name |
| ValidatePreprocessing.Expected | scripts/validate_preprocessing.py:126 | `set(range(1, n + 1))` holds exactly the integers 1..n |
| ValidatePreprocessing.Actual | scripts/validate_preprocessing.py:127 | the set of turn numbers holds each turn's number and nothing else |
| ValidatePreprocessing.NumberingIssues | scripts/validate_preprocessing.py:129-156 | the numbering checks report only `turn_numbering` errors |
| ValidatePreprocessing.ExpectedCard | scripts/validate_preprocessing.py:126 | the expected set has n elements |
| ValidatePreprocessing.DuplicateSnoc | scripts/validate_preprocessing.py:148-149 | a repeat after one more turn is an earlier repeat or a repeat of its number |
| ValidatePreprocessing.ActualCard | scripts/validate_preprocessing.py:127-149 | there are at most as many distinct numbers as turns, exactly as many when none repeats |
| ValidatePreprocessing.MissingIffExtraOrDuplicate | scripts/validate_preprocessing.py:129-156 | by pigeonhole, a number is missing exactly when one is out of range or repeated |
| ValidatePreprocessing.NumberingSpec | scripts/validate_preprocessing.py:125-156 | no numbering error exactly when the numbers are a permutation of 1..n; never exactly one numbering error |
| ValidatePreprocessing.PermutationCovers | scripts/validate_preprocessing.py:126-129 | a permutation of 1..n uses every number from 1 to n |
| ValidatePreprocessing.Positions | scripts/validate_preprocessing.py:161-164 | an `enumerate` loop collects at most one position per turn |
| ValidatePreprocessing.PositionsMembers | scripts/validate_preprocessing.py:161-179 | a position is collected exactly when its turn satisfies the test |
| ValidatePreprocessing.PositionsEmpty | scripts/validate_preprocessing.py:166-181 | nothing is collected exactly when no turn satisfies the test |
| ValidatePreprocessing.NoErrorsConcat | scripts/validate_preprocessing.py:349-353 | issue lists joined have no error exactly when each has none |
| ValidatePreprocessing.TurnStructureErrors | scripts/validate_preprocessing.py:112-189 | an empty dialogue gives exactly one error; otherwise no error exactly when the numbers are a permutation of 1..n and every speaker is learner or bot |
| ValidatePreprocessing.TurnStructureBlank | scripts/validate_preprocessing.py:174-187 | blank text is reported, as a warning, exactly when some text strips to "" |
| ValidatePreprocessing.CollectPositions | scripts/validate_preprocessing.py:160-164 | the loop collects the positions `Positions` defines |
| ValidatePreprocessing.CheckNumbering | scripts/validate_preprocessing.py:125-156 | the numbering checks give `NumberingIssues` |
| ValidatePreprocessing.ValidateTurnStructure | scripts/validate_preprocessing.py:112-189 | `validate_turn_structure` with its two loops gives `TurnStructureIssues` |
| ValidatePreprocessing.EncodingPositions | scripts/validate_preprocessing.py:197-205 | a position is listed exactly when its text holds U+FFFD or a run of five whitespace characters |
| ValidatePreprocessing.LengthFlagOf | scripts/validate_preprocessing.py:219-222 | "too_short" exactly under 2 characters, "too_long" exactly over 2000 |
| ValidatePreprocessing.SuspiciousTurns | scripts/validate_preprocessing.py:216-222 | each entry names a turn, its stripped length and the flag that length earns |
| ValidatePreprocessing.EncodingPositionsEmpty | scripts/validate_preprocessing.py:207 | the encoding list is non-empty exactly when some text is suspect |
| ValidatePreprocessing.SuspiciousTurnsEmpty | scripts/validate_preprocessing.py:224 | the length list is non-empty exactly when some stripped text is too short or too long |
| ValidatePreprocessing.ContentQualitySpec | scripts/validate_preprocessing.py:192-232 | only warnings, at most two: encoding exactly when some text holds U+FFFD or five whitespace characters in a row, length exactly when some stripped text is under 2 or over 2000 characters |
| ValidatePreprocessing.CollectEncoding | scripts/validate_preprocessing.py:197-205 | the encoding loop gives `EncodingPositions` |
| ValidatePreprocessing.CollectSuspicious | scripts/validate_preprocessing.py:216-222 | the length loop gives `SuspiciousTurns` |
| ValidatePreprocessing.ValidateContentQuality | scripts/validate_preprocessing.py:192-232 | `validate_content_quality` gives `ContentQualityIssues` |
| ValidatePreprocessing.SamePairs | scripts/validate_preprocessing.py:243-246 | fewer pairs than turns, none for fewer than two turns |
| ValidatePreprocessing.SamePairsMembers | scripts/validate_preprocessing.py:244-246 | the pairs are exactly the adjacent 1-based positions with equal speakers |
| ValidatePreprocessing.SamePairsAllSame | scripts/validate_preprocessing.py:244-246 | when all speakers are equal every adjacent pair is collected |
| ValidatePreprocessing.AlternationSpec | scripts/validate_preprocessing.py:235-258 | at most one warning; none when speakers alternate, one when two or more turns all share a speaker |
| ValidatePreprocessing.ValidateSpeakerAlternation | scripts/validate_preprocessing.py:235-258 | the loop and the 30% test give `AlternationIssues` |
| ValidatePreprocessing.ValidationResult.constructor | scripts/validate_preprocessing.py:28-32 | a new result has its path and empty issues, warnings and stats |
| ValidatePreprocessing.ValidationResult.AddIssue | scripts/validate_preprocessing.py:34-41 | appends one issue and changes nothing else |
| ValidatePreprocessing.ValidationResult.AddWarning | scripts/validate_preprocessing.py:43-49 | appends to the separate warnings list, which `is_valid` never reads |
| ValidatePreprocessing.SourceWarnings | scripts/validate_preprocessing.py:261-320 | the source cross-reference yields only warnings, one per check that fired |
| ValidatePreprocessing.ValidateJsonFile | scripts/validate_preprocessing.py:323-355 | a fresh result for the file whose issues are those `FileIssues` defines, with no separate warnings |
| ValidatePreprocessing.RunChecks | scripts/validate_preprocessing.py:349-353 | the five checks' issues in order |
| ValidatePreprocessing.FileIssuesSpec | scripts/validate_preprocessing.py:323-355 | a file is valid exactly when it was read and decoded, its name carries the pattern and agrees with all four fields, and its turns are non-empty, a permutation of 1..n, with learner or bot speakers |
| ValidatePreprocessing.Matching | scripts/validate_preprocessing.py:360 | the glob selects exactly the listed files whose names match `S*_W*_T*.json` |
| ValidatePreprocessing.Reports | scripts/validate_preprocessing.py:370-373 | one report per selected file |
| ValidatePreprocessing.CountSeverityZero | scripts/validate_preprocessing.py:380 | a file counts no errors exactly when it has none |
| ValidatePreprocessing.CountValidBounds | scripts/validate_preprocessing.py:375-380 | the valid count is at most the total, and equals it exactly when no file has an error, exactly when the error total is zero |
| ValidatePreprocessing.SummarySpec | scripts/validate_preprocessing.py:358-391 | valid and invalid files add up to the total; none invalid exactly when the error total is zero; the totals are reported only for a non-empty listing |
| ValidatePreprocessing.CountResults | scripts/validate_preprocessing.py:375-381 | the `sum` passes give the counts the summary functions define |
| ValidatePreprocessing.ValidateEach | scripts/validate_preprocessing.py:370-373 | the loop gives one report per file, in order |
| ValidatePreprocessing.ReportsOf | scripts/validate_preprocessing.py:370-373 | one report per result |
| ValidatePreprocessing.ValidateAllFiles | scripts/validate_preprocessing.py:358-391 | `validate_all_files` validates every file the glob selects, then counts |
| ValidatePreprocessing.StemJson | scripts/validate_preprocessing.py:59 | a name without dots is the whole stem of `name + ".json"` |
| ValidatePreprocessing.DialogueIdMatches | scripts/validate_preprocessing.py:62-100 | the pipeline's dialogue id has no dot and reads back through the filename pattern |
| ValidatePreprocessing.DialogueIdGlob | scripts/validate_preprocessing.py:360 | the pipeline's output names are selected by the glob |
| ValidatePreprocessing.IntendedNameAgrees | scripts/validate_preprocessing.py:56-109 | the metadata the pipeline writes agrees with its own output name |
| ValidatePreprocessing.IntendedTurnsPass | scripts/validate_preprocessing.py:125-172 | turns numbered 1..n pass the numbering and speaker checks |
| ValidatePreprocessing.PipelineOutputValid | scripts/validate_preprocessing.py:323-355 | a non-empty dialogue the pipeline saves as intended is selected by the glob and raises no error |
| TaskClassifier.Score | scripts/task_classifier.py:84 | the score counts each keyword that occurs once, is at most the number of keywords, and is 0 exactly when none occurs |
| TaskClassifier.Scores | scripts/task_classifier.py:83-84 | one score per topic, in table order |
| TaskClassifier.FirstMax | scripts/task_classifier.py:92 | `max` with a key picks a position of greatest value that beats every earlier one |
| TaskClassifier.FirstMaxUnique | scripts/task_classifier.py:92 | only one position is maximal and beats everything before it |
| TaskClassifier.ClassifySpec | scripts/task_classifier.py:66-92 | no topic exactly when no keyword of any topic occurs; a named topic has a positive score, none scores higher, and every topic before it scores strictly lower |
| TaskClassifier.FilteredMax | scripts/task_classifier.py:85-92 | the first maximum among the positive entries is the first maximum over all topics |
| TaskClassifier.FilteredStep | scripts/task_classifier.py:85-86 | a topic is entered exactly when its score is positive |
| TaskClassifier.FilteredEmpty | scripts/task_classifier.py:82-86 | the scan keeps only positive scores, and keeps none exactly when every topic scores zero |
| TaskClassifier.ScoreTopics | scripts/task_classifier.py:82-86 | the scoring loop keeps, in table order, one entry per topic with a positive score; it is empty exactly when no topic scores |
| TaskClassifier.ClassifyTopic | scripts/task_classifier.py:77-92 | the loop followed by `max` computes `Classify` |
| TaskClassifier.ClassifyTaskTopic | scripts/task_classifier.py:66-92 | `classify_task_topic` over the built-in topic table |
| TaskClassifier.WithTopicSpec | scripts/task_classifier.py:95-109 | adding the topic keeps the turns, sets a topic whenever some keyword occurs, returns the record unchanged when no keyword occurs, and adding it again changes nothing |
| TaskClassifier.AddTaskTopicToDialogue | scripts/task_classifier.py:95-109 | `add_task_topic_to_dialogue` sets the topic on a copy when one is found |
| RepairDetector.AnnotationSpec | scripts/repair_detector.py:517-545 | a dict missing a required field is rejected and left untouched (`dialogue_id` is not required); otherwise only `dialogue_id` changes, the verdict is the same before and after, a second call changes nothing, and `turn_indices` need only be a list, of any contents |
| RepairDetector.ValidateRepairAnnotation | scripts/repair_detector.py:517-545 | the verdict is `AnnotationValid` of the dict as given, and the caller's dict is left as `Annotated` describes |
| RepairDetector.FindFrom | scripts/repair_detector.py:407 | `find` returns the first occurrence at or after the start, or nothing when there is none |
| RepairDetector.LastIndex | scripts/repair_detector.py:462 | `rfind` returns the last occurrence, or nothing when there is none |
| RepairDetector.CountChar | scripts/repair_detector.py:460 | a character count is at most the length |
| RepairDetector.GreedySpan | scripts/repair_detector.py:398-402 | the greedy bracket span is never longer than the text |
| RepairDetector.FirstCloseFrom | scripts/repair_detector.py:414-424 | the first position at or after the start where a `]` brings the count to zero |
| RepairDetector.FirstBalanced | scripts/repair_detector.py:414-424 | where the counting loop breaks: the first such position, or nothing when the count never returns to zero |
| RepairDetector.ScanBrackets | scripts/repair_detector.py:414-424 | the counting loop returns the index of its break, or -1 |
| RepairDetector.DepthPositiveBefore | scripts/repair_detector.py:414-424 | on a text starting with `[`, the count stays positive until the first balancing `]` |
| RepairDetector.CutIsBalanced | scripts/repair_detector.py:426-428 | on text starting with `[`, the cut ends with the `]` that balances it and every shorter prefix is open |
| RepairDetector.CutIdempotent | scripts/repair_detector.py:385-395 | counting again over the cut stops at its last character, so the second counting pass leaves a fenced array as it is |
| RepairDetector.BraceStepPartition | scripts/repair_detector.py:436-444 | one character of the brace loop keeps the pieces and the accumulator spelling out the text read |
| RepairDetector.BraceScanPartition | scripts/repair_detector.py:432-444 | the brace loop cuts its input into consecutive pieces, each completed object ending with the `}` that closed it |
| RepairDetector.CollectObjects | scripts/repair_detector.py:432-444 | the brace loop collects the completed objects `BraceScan` defines |
| RepairDetector.ExtractJsonSpec | scripts/repair_detector.py:374-473 | only arrays come back; a non-array decodes to nothing; a non-empty result is the array decoded from the candidate, or from a prefix of it ending in `}` closed with `]`, tried only after a decoding error |
| RepairDetector.BareArrayUnchanged | scripts/repair_detector.py:396-428 | a reply that is just a balanced array, with no fence, reaches `json.loads` unchanged |
| RepairDetector.CandidateText | scripts/repair_detector.py:376-448 | the text handed to `json.loads`, with both counting loops run as loops |
| RepairDetector.ExtractJsonFromResponse | scripts/repair_detector.py:374-473 | `extract_json_from_response` returns `ExtractJson`, with `json.loads` as a parameter |
| ValidateRepairResults.MissingIssuesSpec | scripts/validate_repair_results.py:52-55 | nothing is missing exactly when every required name is present; each absent name is reported once, and only missing-field issues come from this loop |
| ValidateRepairResults.NoneMissingIff | scripts/validate_repair_results.py:53-55 | the loop reports nothing exactly when every name is present |
| ValidateRepairResults.MissingNamed | scripts/validate_repair_results.py:53-55 | a field is reported missing exactly when it is required and absent |
| ValidateRepairResults.OnlyMissing | scripts/validate_repair_results.py:53-55 | the loop reports only missing fields |
| ValidateRepairResults.FieldIssuesSpec | scripts/validate_repair_results.py:57-88 | the checks after the loop pass exactly when every present field is acceptable, and report no missing field |
| ValidateRepairResults.RequiredFieldsListed | scripts/validate_repair_results.py:52 | the six required fields are those the detector's own check requires |
| ValidateRepairResults.StructureSpec | scripts/validate_repair_results.py:48-90 | no issue exactly when the annotation is well formed field by field; each absent required field is reported once by name, and nothing else is reported missing |
| ValidateRepairResults.WellFormedAccepted | scripts/validate_repair_results.py:48-90 | an annotation with no structure issue is also accepted by `validate_repair_annotation` |
| ValidateRepairResults.MissingFieldIssues | scripts/validate_repair_results.py:53-55 | the missing-field loop gives `MissingIssues` |
| ValidateRepairResults.CheckIds | scripts/validate_repair_results.py:57-63 | the id comparisons append their issues |
| ValidateRepairResults.CheckLabels | scripts/validate_repair_results.py:65-71 | the enum tests append their issues |
| ValidateRepairResults.CheckTexts | scripts/validate_repair_results.py:82-88 | the type tests on the texts append their issues |
| ValidateRepairResults.ValidateRepairStructure | scripts/validate_repair_results.py:48-90 | `validate_repair_structure` gives `StructureIssues` |
| ValidateRepairResults.SeqMin | scripts/validate_repair_results.py:124 | `min` is an element no greater than any |
| ValidateRepairResults.SeqMax | scripts/validate_repair_results.py:125 | `max` is an element no smaller than any |
| ValidateRepairResults.SetOfCard | scripts/validate_repair_results.py:115 | the set of indices is never larger than the list, and exactly as large when no index repeats |
| ValidateRepairResults.SnocFacts | scripts/validate_repair_results.py:115 | one more index joins the set and keeps the list repeat-free exactly when it is new |
| ValidateRepairResults.IndexIssuesSpec | scripts/validate_repair_results.py:103-112 | an index raises no issue exactly when it is at least 1 and a turn number; it is reported absent exactly when it is not a turn number |
| ValidateRepairResults.PerIndexIssuesSpec | scripts/validate_repair_results.py:103-112 | the loop reports nothing exactly when every index is at least 1 and a turn number |
| ValidateRepairResults.PerIndexEmpty | scripts/validate_repair_results.py:103-112 | the loop reports nothing exactly when the indices are sound |
| ValidateRepairResults.SoundSnoc | scripts/validate_repair_results.py:103-112 | soundness after one more index |
| ValidateRepairResults.PerIndexAbsent | scripts/validate_repair_results.py:109-112 | an index is reported absent exactly when it is listed and not a turn number |
| ValidateRepairResults.IncreasingIff | scripts/validate_repair_results.py:114-120 | strictly increasing exactly when repeat-free and sorted |
| ValidateRepairResults.ListIssuesSpec | scripts/validate_repair_results.py:114-129 | the three list checks pass exactly when the indices strictly increase over at most 21 turns |
| ValidateRepairResults.DialogueIssuesSpec | scripts/validate_repair_results.py:93-131 | no issue exactly when the indices are sound; every index that is not a turn number is reported absent whatever its range |
| ValidateRepairResults.AgainstDialogueSpec | scripts/validate_repair_results.py:93-131 | the call raises exactly when the indices are neither integers in a list nor an empty non-list; an empty string or dict is reported as not in order; otherwise the issues are those of the list |
| ValidateRepairResults.CheckIndices | scripts/validate_repair_results.py:103-112 | the per-index loop gives `PerIndexIssues` |
| ValidateRepairResults.ValidateRepairAgainstDialogue | scripts/validate_repair_results.py:93-131 | `validate_repair_against_dialogue` gives `AgainstDialogue` |
| ValidateRepairResults.IntersectionIff | scripts/validate_repair_results.py:143-144 | the intersection is non-empty exactly when some index occurs in both lists |
| ValidateRepairResults.RowPairsSpec | scripts/validate_repair_results.py:140-145 | the inner loop reports `(i, j)` exactly for later `j` whose indices meet `i`'s |
| ValidateRepairResults.PairsUpToSpec | scripts/validate_repair_results.py:138-145 | the rows so far report exactly their overlapping pairs |
| ValidateRepairResults.OverlapSpec | scripts/validate_repair_results.py:134-147 | a pair is reported exactly when `i < j` and the index sets meet; nothing is reported exactly when they are pairwise disjoint |
| ValidateRepairResults.CheckRepairOverlap | scripts/validate_repair_results.py:134-147 | the double loop gives `OverlapPairs` |
| ValidateRepairResults.Tagged | scripts/validate_repair_results.py:193-197 | every issue is prefixed with its repair's position |
| ValidateRepairResults.Outcomes | scripts/validate_repair_results.py:190-197 | one outcome per repair, for positions 1..n |
| ValidateRepairResults.CollectStep | scripts/validate_repair_results.py:190-197 | the loop after one more repair |
| ValidateRepairResults.CollectSpec | scripts/validate_repair_results.py:188-222 | the loop succeeds exactly when no repair raises; otherwise it raises what the first raising repair did |
| ValidateRepairResults.RaisedStaysRaised | scripts/validate_repair_results.py:220-222 | once a repair raises, later repairs change nothing |
| ValidateRepairResults.IndexLists | scripts/validate_repair_results.py:139-141 | one index list per repair |
| ValidateRepairResults.FirstTurns | scripts/validate_repair_results.py:213 | one first turn per repair |
| ValidateRepairResults.OverlapWarnings | scripts/validate_repair_results.py:202-204 | one warning per overlapping pair |
| ValidateRepairResults.DialogueFileSpec | scripts/validate_repair_results.py:150-224 | repairs are invalid exactly when the dialogue could not be loaded, there is no repair file, or a repair has an issue or raises; valid exactly when there are no issues; non-sequential ids and unsorted first turns are only warnings |
| ValidateRepairResults.CheckRepairs | scripts/validate_repair_results.py:188-199 | the per-repair loop gives `RepairIssues` |
| ValidateRepairResults.CheckOneRepair | scripts/validate_repair_results.py:191-197 | one pass: a repair that is not a dict raises as `NonDictRaises` states; otherwise structure issues, then dialogue issues, each with its position |
| ValidateRepairResults.NonDictRaises | scripts/validate_repair_results.py:48-100 | a repair that is not a dict always raises: `TypeError` for a number or `None`, and for a string or list exactly when it holds (as substring or element) a key the structure check then subscripts; otherwise `AttributeError` from `repair.get` |
| ValidateRepairResults.NonDictExamples | scripts/validate_repair_results.py:48-100 | a string containing `trigger` raises `TypeError`; a list of other values raises `AttributeError` |
| ValidateRepairResults.ValidateDialogueFile | scripts/validate_repair_results.py:150-224 | `validate_dialogue_file` gives `DialogueFileResult` |
| ValidateRepairResults.ValidateLoaded | scripts/validate_repair_results.py:185-218 | the part after a non-empty list was loaded gives `LoadedResult` |
| ValidateRepairResults.CheckWarnings | scripts/validate_repair_results.py:201-215 | the overlap, id and order checks give `RepairWarnings` |
| ValidateRepairResults.Results | scripts/validate_repair_results.py:259-264 | one result per dialogue file |
| ValidateRepairResults.CountInvalid | scripts/validate_repair_results.py:278-282 | at most one invalid file per result |
| ValidateRepairResults.TallyAllSpec | scripts/validate_repair_results.py:259-294 | for coherent results, repair-file and repair counts split the files, valid and invalid repairs add up to the total, and `files_with_issues` counts each invalid file twice |
| ValidateRepairResults.SummarySpec | scripts/validate_repair_results.py:227-294 | over all files the same partitions hold, and each invalid file is counted twice in `files_with_issues` |
| ValidateRepairResults.ResultsStep | scripts/validate_repair_results.py:259-264 | the results after one more file |
| ValidateRepairResults.AddToSummary | scripts/validate_repair_results.py:266-294 | the counter updates for one result give `Tally` |
| ValidateRepairResults.ValidateAll | scripts/validate_repair_results.py:227-294 | `validate_all` gives the results and the tallied counters |
| CrossValidateRepairs.FirstTurnAt | scripts/cross_validate_repairs.py:54-57 | the position found holds a turn with that number and no earlier turn has it; no position exactly when no turn has the number |
| CrossValidateRepairs.TurnTextSpec | scripts/cross_validate_repairs.py:51-57 | a number no turn carries gives "" and no speaker; a non-empty text is the text of the first turn with that number |
| CrossValidateRepairs.FirstTurnAtIs | scripts/cross_validate_repairs.py:54-57 | a turn with the number and none before it is the one the lookup returns |
| CrossValidateRepairs.GetTurnText | scripts/cross_validate_repairs.py:51-57 | the search loop returns the text of the first turn with the number, or "" |
| CrossValidateRepairs.GetFirstSpeaker | scripts/cross_validate_repairs.py:113-117 | the loop that breaks at the first turn with the number yields that turn's speaker |
| CrossValidateRepairs.IndexIssueOfSpec | scripts/cross_validate_repairs.py:69-78 | an index gets an issue exactly when it is below 1, above the largest turn number, or not a turn; "does not exist" is reported only for indices in range; the same indices are flagged by the repair validator |
| CrossValidateRepairs.IndexIssuesSpec | scripts/cross_validate_repairs.py:60-80 | at most one issue per index, every issue names a bad cited index, every bad index is named, and no issues means every index is good |
| CrossValidateRepairs.ValidateRepairTurnIndices | scripts/cross_validate_repairs.py:60-80 | the loop's issue list is the one the specification gives, or the error a non-integer index raises |
| CrossValidateRepairs.RepairTurnsSpec | scripts/cross_validate_repairs.py:96-100 | the collected turns are exactly the cited indices whose turn has non-empty text, with that text |
| CrossValidateRepairs.SpeakerWarnings | scripts/cross_validate_repairs.py:119-124 | the initiation check yields only speaker-mismatch warnings |
| CrossValidateRepairs.FewTurnsWarning | scripts/cross_validate_repairs.py:102-103 | this check yields only too-few-turns warnings |
| CrossValidateRepairs.SpanWarning | scripts/cross_validate_repairs.py:106-107 | this check yields only long-span warnings |
| CrossValidateRepairs.KeywordWarning | scripts/cross_validate_repairs.py:127-137 | this check yields only missing-keyword warnings |
| CrossValidateRepairs.EndWarning | scripts/cross_validate_repairs.py:140-151 | this check yields only near-end warnings |
| CrossValidateRepairs.EvidenceWarning | scripts/cross_validate_repairs.py:154-169 | this check yields only unrelated-evidence warnings |
| CrossValidateRepairs.ContentCheckOutcome | scripts/cross_validate_repairs.py:83-171 | the check fails exactly when indices are cited and the trigger or evidence is truthy but not a string; otherwise its issue list is always empty |
| CrossValidateRepairs.SpeakerWarningsSpec | scripts/cross_validate_repairs.py:110-124 | at most one mismatch warning, given exactly when the first cited turn has a speaker and it is not "learner" for LI or not "bot" for BI |
| CrossValidateRepairs.WarningRules | scripts/cross_validate_repairs.py:95-169 | each warning fires exactly under its rule: fewer than two cited turns with text, more than ten indices, a resolved repair ending within two turns of the last turn, a speaker mismatch, evidence sharing no word with the first three cited turns |
| CrossValidateRepairs.WarnsSplit | scripts/cross_validate_repairs.py:95-169 | in the concatenated report a kind of warning is present exactly when its own check produced one |
| CrossValidateRepairs.WarnsConcat | scripts/cross_validate_repairs.py:95-169 | a kind of warning is in a concatenation exactly when it is in one of the parts |
| CrossValidateRepairs.WarnsUniform | scripts/cross_validate_repairs.py:95-169 | a report of one kind warns of that kind and no other, exactly when it is non-empty |
| CrossValidateRepairs.CollectRepairTurns | scripts/cross_validate_repairs.py:96-100 | the loop collects exactly the turns the specification names |
| CrossValidateRepairs.FindRepairKeywords | scripts/cross_validate_repairs.py:130-134 | the loop stops with true exactly when some collected turn contains a repair keyword |
| CrossValidateRepairs.FindMention | scripts/cross_validate_repairs.py:155-166 | the loop reports a mention exactly when one of the first three cited turns with text shares a word with the evidence |
| CrossValidateRepairs.CheckSpeaker | scripts/cross_validate_repairs.py:110-124 | the lookup and comparison give exactly the specified mismatch warnings |
| CrossValidateRepairs.CheckKeywords | scripts/cross_validate_repairs.py:127-137 | the keyword check gives exactly the specified warning |
| CrossValidateRepairs.CheckSequence | scripts/cross_validate_repairs.py:95-151 | the checks for a non-empty index list give the specified warnings in order |
| CrossValidateRepairs.CheckEnd | scripts/cross_validate_repairs.py:140-151 | the resolution check gives exactly the specified warning |
| CrossValidateRepairs.CrossValidateRepairContent | scripts/cross_validate_repairs.py:83-171 | the method's result is the specified issues and warnings, or the error reading a field raises |
| CrossValidateRepairs.CheckContent | scripts/cross_validate_repairs.py:94-171 | the body once the fields are read gives the specified result |
| FixRepairIssues.RangeSplit | scripts/fix_repair_issues.py:129-135 | the in-range and out-of-range filters split the index list: every index lands in exactly one, each keeps only its kind, and nothing is out of range exactly when the in-range filter keeps the whole list |
| FixRepairIssues.InRangeConcat | scripts/fix_repair_issues.py:45 | the in-range filter keeps the indices in their original order |
| FixRepairIssues.WithIndicesRoundTrip | scripts/fix_repair_issues.py:53-54 | a copy with new indices reads back exactly those indices and keeps every other field |
| FixRepairIssues.PartitionSpec | scripts/fix_repair_issues.py:43-55 | every repair is kept or removed, never both, in increasing position order; a repair is kept exactly when two or more of its indices are in range |
| FixRepairIssues.RewrittenSpec | scripts/fix_repair_issues.py:53-59 | a rewritten repair reads back its valid indices and new id; every other field is the original's |
| FixRepairIssues.FixedRepairSpec | scripts/fix_repair_issues.py:35-61 | each fixed repair carries the in-range indices of its source in order, at least two of them, and the id of its position counted from 1; its other fields are the source's |
| FixRepairIssues.SplitByValid | scripts/fix_repair_issues.py:43-55 | the loop raises TypeError exactly when some index list cannot be read; otherwise it returns fresh copies of the kept repairs and the removed repairs themselves, in order |
| FixRepairIssues.Renumber | scripts/fix_repair_issues.py:58-59 | the in-place renumbering gives the entries ids 1, 2, ... and changes nothing else |
| FixRepairIssues.FixTurnIndices | scripts/fix_repair_issues.py:35-61 | fresh renumbered copies of the repairs with two or more in-range indices, and the removed repairs as given; TypeError exactly when an index list cannot be read |
| FixRepairIssues.WithDialogueIdSpec | scripts/fix_repair_issues.py:68-69 | the copy carries the expected dialogue id, keeps every other field, and setting it again changes nothing |
| FixRepairIssues.FixDialogueIdMismatches | scripts/fix_repair_issues.py:64-71 | as many fresh copies as repairs, each with the expected dialogue id and the original's other fields |
| FixRepairIssues.BestBatch | scripts/fix_repair_issues.py:98-123 | a chosen batch exists and is non-empty |
| FixRepairIssues.BestBatchSpec | scripts/fix_repair_issues.py:98-123 | a non-empty production batch is always chosen; failing that a non-empty validation batch; nothing is chosen only when neither exists and the first batch is empty |
| FixRepairIssues.ChooseBatch | scripts/fix_repair_issues.py:98-123 | the three selection loops choose the batch the specification names |
| FixRepairIssues.FindNamed | scripts/fix_repair_issues.py:102-107 | the loop that breaks at a name finds the first batch with it |
| FixRepairIssues.DecisionSpec | scripts/fix_repair_issues.py:127-144 | a repair passes as is exactly when all its indices are in range; a copy keeps its in-range indices, at least two and fewer than before; a repair with an invalid index is copied exactly when two or more indices are in range |
| FixRepairIssues.ScanIssuesEmpty | scripts/fix_repair_issues.py:127-144 | no issue is reported exactly when every repair passes as is |
| FixRepairIssues.ScanNotesEmpty | scripts/fix_repair_issues.py:127-144 | no fix is noted exactly when no repair is copied |
| FixRepairIssues.AllAsIsValues | scripts/fix_repair_issues.py:126-153 | with no invalid index, the fixed list holds every repair in place, updated, and is the same list as the chosen one after the updates |
| FixRepairIssues.InvalidValuesDiffer | scripts/fix_repair_issues.py:126-155 | a repair with an invalid index makes the fixed list differ both from the chosen list after the updates and from the list as loaded |
| FixRepairIssues.AsWrittenChangedIff | scripts/fix_repair_issues.py:146-155 | the comparison as written holds exactly when some repair had an invalid index |
| FixRepairIssues.SnapshotChangedIff | scripts/fix_repair_issues.py:146-155 | compared with the list as loaded, the fixed list differs exactly when some repair had an invalid index or the updates change some dialogue id or id |
| FixRepairIssues.FinishSpec | scripts/fix_repair_issues.py:147-153 | the updates keep the indices, set the expected dialogue id and set the id |
| FixRepairIssues.FixedValuesSpec | scripts/fix_repair_issues.py:126-153 | every fixed entry has readable indices all in range, the expected dialogue id, and the id of its position counted from 1 |
| FixRepairIssues.FixOutcomeSpec | scripts/fix_repair_issues.py:74-166 | a dry run never writes; what is written is the fixed list of the chosen batch; no batch means no action; an unreadable index list ends the issues with the error and takes no action |
| FixRepairIssues.IdOnlyFixLost | scripts/fix_repair_issues.py:155 | a repair with in-range indices but a stale dialogue id is fixed and saved against a snapshot, but as written the run reports no action and writes nothing |
| FixRepairIssues.ScanBest | scripts/fix_repair_issues.py:126-144 | the loop's messages and fixed entries are those of the scan specification, up to the first repair whose indices raise |
| FixRepairIssues.UpdateIds | scripts/fix_repair_issues.py:146-153 | the two update loops set the dialogue id and renumber the entries in place |
| FixRepairIssues.ApplyFixes | scripts/fix_repair_issues.py:126-153 | the fixed list, the messages and the chosen list's dicts after the updates are those the specification gives; a raise leaves the dicts as loaded |
| FixRepairIssues.FixBatchAsWritten | scripts/fix_repair_issues.py:126-161 | the outcome on the chosen batch with the comparison as written |
| FixRepairIssues.FixBatch | scripts/fix_repair_issues.py:126-161 | the outcome on the chosen batch with the comparison against a snapshot |
| FixRepairIssues.FixRepairFileAsWritten | scripts/fix_repair_issues.py:74-166 | fix_repair_file as written gives the specified outcome on the loaded batches |
| FixRepairIssues.FixRepairFile | scripts/fix_repair_issues.py:74-166 | fix_repair_file with the snapshot comparison gives the specified outcome on the loaded batches |
| CalibrateRepairDetection.StrLeqPreorder | scripts/calibrate_repair_detection.py:39 | string comparison, as sorted() uses it, is total and transitive |
| CalibrateRepairDetection.SortBy | scripts/calibrate_repair_detection.py:39 | sorting keeps every element as often as it occurs |
| CalibrateRepairDetection.SortBySorted | scripts/calibrate_repair_detection.py:39 | under a total preorder the sorted list is in order |
| CalibrateRepairDetection.SortedKeysMembers | scripts/calibrate_repair_detection.py:39 | sorting a dict's keys yields every key and nothing else |
| CalibrateRepairDetection.SortedKeysAscending | scripts/calibrate_repair_detection.py:39 | a dict's keys come out strictly ascending, each once |
| CalibrateRepairDetection.SortedElems | scripts/calibrate_repair_detection.py:39 | sorted() raises exactly on None, an integer, or a list of two or more elements that are neither all integers nor all strings (a list of lists is counted here; see Left out) |
| CalibrateRepairDetection.SortedIntList | scripts/calibrate_repair_detection.py:39 | a list of integers comes back ascending with the same elements as often |
| CalibrateRepairDetection.SortedStrings | scripts/calibrate_repair_detection.py:39 | a list of strings, or a string's characters, come back ascending with the same elements as often |
| CalibrateRepairDetection.SortedDictKeys | scripts/calibrate_repair_detection.py:39 | a dict yields its keys, each once, ascending |
| CalibrateRepairDetection.NormalizeRepair | scripts/calibrate_repair_detection.py:31-44 | None exactly for a non-dict; an error exactly when the indices cannot be sorted or the trigger is not a string; otherwise the indices are the sorted ones |
| CalibrateRepairDetection.NormalizedTriggerClean | scripts/calibrate_repair_detection.py:42 | a normalised trigger has no upper-case letter and no whitespace at either end |
| CalibrateRepairDetection.NormalizeAll | scripts/calibrate_repair_detection.py:54-55 | the list normalises exactly when every element does, and never grows |
| CalibrateRepairDetection.NormalizeAllDicts | scripts/calibrate_repair_detection.py:54-55 | a list of dicts loses nothing: each element is normalised in its place |
| CalibrateRepairDetection.FirstCandidateSpec | scripts/calibrate_repair_detection.py:65-86 | the inner loop stops at the first candidate actual, and runs out only when there is none |
| CalibrateRepairDetection.FindMatch | scripts/calibrate_repair_detection.py:65-86 | the inner loop finds the first candidate the specification names |
| CalibrateRepairDetection.ExactPass | scripts/calibrate_repair_detection.py:65-73 | the exact pass counts and records the matches the specification gives |
| CalibrateRepairDetection.PartialPass | scripts/calibrate_repair_detection.py:76-86 | the partial pass counts and records the matches the specification gives |
| CalibrateRepairDetection.CompareRepairs | scripts/calibrate_repair_detection.py:47-111 | compare_repairs gives the specified metrics, or the error normalising raises |
| CalibrateRepairDetection.MatchStepSpec | scripts/calibrate_repair_detection.py:65-86 | a match adds the prediction and its actual to the matched sets, which grow by one unless the actual was matched already |
| CalibrateRepairDetection.ExactPhaseSpec | scripts/calibrate_repair_detection.py:65-73 | the exact pass matches each prediction at most once and each match names a real actual; an exclusive pass never matches an actual twice |
| CalibrateRepairDetection.PartialPhaseSpec | scripts/calibrate_repair_detection.py:76-86 | each partial match pairs a still-unmatched prediction with a still-unmatched actual |
| CalibrateRepairDetection.PassesSpec | scripts/calibrate_repair_detection.py:57-86 | after both passes the matched predictions are as many as the matches and no more than the predictions; the matched actuals are at most as many |
| CalibrateRepairDetection.CompareCounts | scripts/calibrate_repair_detection.py:88-107 | the totals are the lengths of the lists as given, the true positives are the exact matches, the false positives the predictions neither pass matched, the false negatives between 0 and the annotations |
| CalibrateRepairDetection.DoubleExactMatch | scripts/calibrate_repair_detection.py:65-73 | two identical predictions both match the one identical annotation exactly |
| CalibrateRepairDetection.ExactMatchesCanExceedActual | scripts/calibrate_repair_detection.py:64-73 | as written, two identical predictions against one annotation give two exact matches, more true positives than annotations |
| CalibrateRepairDetection.ExclusiveMatchesBounded | scripts/calibrate_repair_detection.py:64-73 | with an exclusive exact pass the matches equal the annotations matched, so true positives never exceed annotations |
| CreateReviewDocuments.Len | create_review_documents.py:48-49 | len() fails exactly on None and integers, and a list's length is its number of items |
| CreateReviewDocuments.DictElements | create_review_documents.py:56-59 | iterating the repairs succeeds exactly for a list of dicts or an empty string or dict, and yields the list's items |
| CreateReviewDocuments.CountWhere | create_review_documents.py:56-59 | a count of repairs with a given code never exceeds the repairs |
| CreateReviewDocuments.CountDisjoint | create_review_documents.py:56-59 | counting two disjoint sets of codes counts each repair at most once |
| CreateReviewDocuments.TurnTexts | create_review_documents.py:25-27 | the classifier reads one text per turn of a list |
| CreateReviewDocuments.TaskTopicOfNames | create_review_documents.py:21-30 | the topic is 'Unknown' or one of the classifier's topic names |
| CreateReviewDocuments.DigitAt | create_review_documents.py:46-47 | reading a digit of the file name succeeds exactly for a digit within the name, and gives its value |
| CreateReviewDocuments.MergedCounts | create_review_documents.py:33-63 | total repairs equal the summary count and the repair list's length; total turns are the turns' count; BI plus LI, and resolved plus unresolved, never exceed the repairs; no repair file gives empty repairs and a zero summary |
| CreateReviewDocuments.MergedTopic | create_review_documents.py:39 | the topic is the dialogue's own when truthy, otherwise 'Unknown' or a classifier topic name |
| CreateReviewDocuments.FileNameDigits | create_review_documents.py:46-47 | W1_T1.json reads as week 1 task 1 and W4_T3.json as week 4 task 3; a student-prefixed name raises ValueError and a short name IndexError |
| CreateReviewDocuments.Repeat | create_review_documents.py:118-120 | a repeated character string has the given length and only that character |
| CreateReviewDocuments.PadLeft | create_review_documents.py:124 | right alignment pads with spaces on the left up to the width and ends with the text |
| CreateReviewDocuments.PadRight | create_review_documents.py:124 | left alignment starts with the text and pads with spaces up to the width |
| CreateReviewDocuments.TurnLine | create_review_documents.py:123-124 | a turn line exists only for a dict with speaker, an integer turn number and a text |
| CreateReviewDocuments.FormatLineEnds | create_review_documents.py:124 | every turn line starts with "Turn " and ends with a newline |
| CreateReviewDocuments.FormatLineColumns | create_review_documents.py:124 | a turn number below 1000 fills three columns, so the bracketed label sits in columns 8 to 20 and the text starts at column 21 |
| CreateReviewDocuments.CollectSpec | create_review_documents.py:122-124 | the lines are collected exactly when every turn gives one, each in order |
| CreateReviewDocuments.CollectFirstError | create_review_documents.py:122-124 | the first turn that raises decides the error |
| CreateReviewDocuments.LineResults | create_review_documents.py:122-124 | one line result per turn, in order |
| CreateReviewDocuments.FullDialogueText | create_review_documents.py:115-126 | the method's text is the banner followed by each turn's line in order, or the error of the first turn that gives no line (see `FullDialogueOk`, `FullDialogueFirstError`, `FullDialogueLayout`) |
| CreateReviewDocuments.AppendTurnLines | create_review_documents.py:122-124 | the loop appends every turn's line in order, or stops with the first error |
| CreateReviewDocuments.NatToStringShort | create_review_documents.py:124 | a number below 1000 prints in at most three characters |
| CreateReviewDocuments.TurnLineLayout | create_review_documents.py:123-124 | a turn line reads "Turn ", the number in three columns, then LEARNER exactly for a learner and BOT otherwise in eight columns, then the text |
| CreateReviewDocuments.FullDialogueOk | create_review_documents.py:115-126 | the text is produced exactly when the turns are a list each of whose elements gives a line, or an empty string or dict |
| CreateReviewDocuments.FullDialogueFirstError | create_review_documents.py:121-123 | turns are visited in order: the first turn that gives no line decides the error, whatever follows it |
| CreateReviewDocuments.FullDialogueLayout | create_review_documents.py:115-126 | the text is the banner followed by the turn lines in order; no turns print the banner alone |

## Left out

- **Reading and writing files.** This covers document extraction with python-docx and pdfplumber, `load_json`, `load_dialogue`, `load_repairs`, `find_repair_file`, `save_dialogue_json`, `json.dump`, directory creation and `rglob`.
  - Extracted texts, decoded JSON values, listings and modification times are inputs.
  - Writing a file is modelled as the value that would be written.
- **`json.loads` and regular-expression word splitting.** Both are parameters: a parse function, and `words` for `re.findall(r'\b\w+\b', ...)`.
- **JSON values.** Floating-point numbers and booleans are not in `JVal`. A turn number that is present but not an integer is treated like a missing one (`DTurn`).
- PipelineRun.ProcessTasks: follows the corrected splitter call (no `expected_tasks=`) and the corrected save call (metadata saved). As written, both calls raise `TypeError`; that run is `PipelineRun.RunFromAsWritten` (see "## Findings").
- PipelineRun.ProcessDocument: follows the corrected splitter call (no `expected_tasks=`) and the corrected save call (metadata saved). As written, both calls raise `TypeError`; that run is `PipelineRun.RunFromAsWritten` (see "## Findings").
- PipelineRun.RunDocuments: follows the corrected splitter call (no `expected_tasks=`) and the corrected save call (metadata saved). As written, both calls raise `TypeError`; that run is `PipelineRun.RunFromAsWritten` (see "## Findings").
- PipelineRun.RunPipeline: follows the corrected splitter call (no `expected_tasks=`) and the corrected save call (metadata saved). As written, both calls raise `TypeError`; that run is `PipelineRun.RunFromAsWritten` (see "## Findings").
- PipelineRun.TaskStepConsistent: stated for the corrected run. As written, no dialogue is ever saved (`PipelineRun.AsWrittenSavesNothing`).
- PipelineRun.TasksRunConsistent: stated for the corrected run. As written, no dialogue is ever saved (`PipelineRun.AsWrittenSavesNothing`).
- PipelineRun.DocStepConsistent: stated for the corrected run. As written, no dialogue is ever saved (`PipelineRun.AsWrittenSavesNothing`).
- PipelineRun.RunConsistent: stated for the corrected run. As written, no dialogue is ever saved (`PipelineRun.AsWrittenSavesNothing`).
- **Python text functions.** `lower`, `isupper`, `islower`, `isspace`, `strip` and the regex class `\s` follow Python for code points up to U+00FF only. There is no other Unicode case mapping.
- Text.StripSpec: whitespace above U+00FF (U+2028, U+3000 and the other Unicode spaces) counts as an ordinary character, so it is not stripped or collapsed as Python would.
- Text.StripAllSpace: whitespace above U+00FF (U+2028, U+3000 and the other Unicode spaces) counts as an ordinary character, so it is not stripped or collapsed as Python would.
- Normalizer.CollapseSpaceSpec: whitespace above U+00FF (U+2028, U+3000 and the other Unicode spaces) counts as an ordinary character, so it is not stripped or collapsed as Python would.
- Normalizer.CleanTextShape: whitespace above U+00FF (U+2028, U+3000 and the other Unicode spaces) counts as an ordinary character, so it is not stripped or collapsed as Python would.
- **Scores.** Precision, recall and F1 (`scripts/calibrate_repair_detection.py:96-98`) and the `validation_score` of `scripts/cross_validate_repairs.py` are floating point and are not modelled. The integer counts they are computed from are modelled.
- **Left-out functions.**
  - `parse_week4_pdf_old` is dead code that nothing calls.
  - `main` functions, printed progress, report text files and `create_human_readable_summary` only print.
  - `cross_validate_dialogue` and the source-text cross reference of `validate_preprocessing.py` are orchestration. Their warnings are inputs.
- **LLM calls, prompt construction, rate limiting and batch runners** are outside this model.
- **Validator messages.** `ValidatePreprocessing` keeps the kind of each issue, not its message text or `details` dictionary.
- CreateReviewDocuments.Display: a list or dict printed inside an f-string (its `repr`) is reported as `TypeError` instead of being rendered.
- CalibrateRepairDetection.NormalizeRepair: `sorted` on a list of two or more elements that are lists or dicts is reported as `TypeError`. Python compares lists element-wise and raises only for dicts.
- **Distinct-object preconditions.** Some methods require the given repair dicts (`DistinctObjs`) or turn dicts (`Distinct`) to be pairwise distinct objects.
  - This holds for every list that `json.load` or an extractor produces, which are the only lists the scripts pass in.
  - The affected methods are `FixRepairIssues.FixRepairFile`, `FixRepairIssues.FixRepairFileAsWritten`, `FixRepairIssues.Renumber` and the `RunPreprocessing` chunk savers.
- ValidatePreprocessing.ValidateJsonFile: the decoded file is typed (`DialogueJson`), so a document that is not a dict, `turns` that are null or not a list, a turn that is not a dict, a `text` that is null or not a string, a list-valued speaker, and a list- or dict-valued `turn` cannot be given. The source raises on these, and the exception ends `validate_all_files`.
- ValidatePreprocessing.ValidateAllFiles: for the same reason, the run that such a file ends is not modelled.
- FixRepairIssues.FixRepairFile: repair entries are `RepairObj` dicts, so a repair file holding a non-dict entry cannot be given. The source raises there, and `fix_repair_file` reports it as "Error: …".
- FixRepairIssues.FixRepairFileAsWritten: the same typed input as `FixRepairFile`.
- ValidatePreprocessing.ValidateAllFiles: the sorted order of the globbed files is not modelled. Files are taken in the given order.
- ValidateRepairResults.ValidateDialogueFile: the loaded dialogue is typed (`DialogueData`: a dict whose `turns` is a list of dicts), so three kinds of dialogue file cannot be given. These are one that decodes to a non-dict, one whose `turns` is a non-empty non-list, and one that holds a non-dict turn. The source raises on each: `AttributeError` from `dialogue_data.get` (scripts/validate_repair_results.py:167), and `AttributeError` or `TypeError` from `t.get` over the turns once a repair is checked against the dialogue. The `except` at scripts/validate_repair_results.py:219-221 reports it as "Error processing dialogue" with `repairs_valid` false. The model's only failing dialogue is an unreadable one (`None`).
- ValidateRepairResults.DialogueFileSpec: stated over the same typed `DialogueData`, so it does not cover the `AttributeError`/`TypeError` outcomes of a non-dict dialogue, non-list `turns` or a non-dict turn.
- ValidateRepairResults.ValidateAll: takes each dialogue as `DialogueData`, so the processing errors listed for `ValidateDialogueFile` are not among its results or counts.
- CreateReviewDocuments.MergedCounts: the dialogue is a dict (`Fields`), so a dialogue file that decodes to a list, string, number or null cannot be given. For those, `dialogue.get` raises `AttributeError` at create_review_documents.py:39.
- CreateReviewDocuments.MergedTopic: the same typed dialogue as `MergedCounts`, so it does not cover the `AttributeError` at create_review_documents.py:39.
- TaskClassifier.ClassifyTaskTopic: the dialogue is given by its turn texts as strings (`TopicRecord`). So a non-dict dialogue or turn, and a `text` that is not a string, cannot be given. The source raises on these: `AttributeError` from `.get`, or `TypeError` from `" ".join`.
- TaskClassifier.AddTaskTopicToDialogue: the same typed dialogue as `ClassifyTaskTopic`.
- CrossValidateRepairs.CrossValidateRepairContent: the dialogue's turns are `DTurn` records, whose speaker and text are strings when present. So a non-dict turn, or a speaker or text of another JSON type, cannot be given. The source raises `AttributeError` or `TypeError` on these where it calls `.get`, `.lower()` or `.strip()`.
- CrossValidateRepairs.ValidateRepairTurnIndices: the same `DTurn` turns, so a non-dict turn's `AttributeError` is not modelled.
- FixRepairIssues.FixTurnIndices: the same `DTurn` turns, so the `AttributeError` from `t.get` on a non-dict turn (scripts/fix_repair_issues.py:38) is not modelled.
- CalibrateRepairDetection.SortedElems: a list of two or more elements that are lists is reported as `TypeError`. Python's `sorted` compares lists element-wise, so it sorts `[[1], [2]]`; it raises only for dicts, or for lists whose elements do not compare.

## Findings

| source | as written | input that shows it | evidently intended | confidence | as-written member | corrected member |
|---|---|---|---|---|---|---|
| scripts/preprocessing_pipeline.py:208-212 | `split_into_tasks` is called with the keyword `expected_tasks`, which its signature (`scripts/dialogue_parser.py:448`) does not declare | any document that reaches task splitting raises `TypeError` | call it with the text and `week_num` only | high, not executed | Pipeline.ParseTasksAlwaysRaises | Pipeline.ParseTasksIntendedSpec |
| scripts/preprocessing_pipeline.py:409-413 | `save_dialogue_json` is called with the keyword `metadata`, which its signature (`scripts/dialogue_parser.py:584`) does not declare | any task with turns, outside a dry run, raises `TypeError` when saved | save the turns together with their metadata | high, not executed | Pipeline.SaveAlwaysRaises | Pipeline.SaveIntended |
| scripts/fix_repair_issues.py:155 | `fixed_repairs != best_repairs` is tested after the id updates were made through the dicts both lists share | one repair with indices [1, 2] in a two-turn dialogue whose dialogue id is stale: no action, nothing written | compare against the repairs as loaded, so id fixes are saved | medium, not executed | FixRepairIssues.IdOnlyFixLost | FixRepairIssues.SnapshotChangedIff |
| scripts/calibrate_repair_detection.py:64-73 | the exact pass does not skip annotations already matched | two identical predictions and one identical annotation give two exact matches against one annotation | match each annotation at most once, as the partial pass does | medium, not executed | CalibrateRepairDetection.ExactMatchesCanExceedActual | CalibrateRepairDetection.ExclusiveMatchesBounded |
