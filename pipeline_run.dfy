/**
 * `preprocessing_pipeline.run_pipeline`: the per-document and per-task
 * decisions, the summary it returns and the files it writes. The file
 * system enters as the results of text extraction and the modification
 * times of existing outputs.
 *
 * `RunFrom` and the loops use the corrected splitter and save calls
 * (`Pipeline.ParseTasksIntended`, `Pipeline.SaveIntended`); the loop as
 * written, whose splitter call always raises `TypeError`, is
 * `RunFromAsWritten`.
 */
module PipelineRun {
  import opened Wrappers
  import opened Text
  import opened Dialogue
  import TaskSplitter
  import Discovery
  import Pipeline

  /** A configured label set: the alternate learner and bot labels. */
  datatype LabelSetConfig = LabelSetConfig(learner: seq<string>, bot: seq<string>)

  /**
   * The run's inputs: `extract` gives a document's text, or `None` when
   * extraction raises; `outputMtime` gives the modification time of an
   * output file that exists.
   */
  datatype Env = Env(
    extract: string -> Option<string>,
    outputMtime: string -> Option<int>,
    skipKeywords: seq<string>,
    labelSets: map<string, LabelSetConfig>,
    students: seq<int>,
    weeks: seq<int>,
    force: bool,
    dryRun: bool)

  datatype SkipReason = NoContentAfterFiltering | UpToDate
  datatype ErrorKind = ExtractionFailed | NoTurnsParsed

  datatype Processed = Processed(student: string, week: string, task: int, file: string, turns: nat)
  datatype Skipped = Skipped(student: string, week: string, task: Option<int>, reason: SkipReason)
  datatype Failure = Failure(student: string, week: string, task: Option<int>, kind: ErrorKind)
  datatype Summary = Summary(processed: seq<Processed>, skipped: seq<Skipped>, errors: seq<Failure>)

  /** A file the run writes: the extracted text, or a dialogue. */
  datatype Write = TextFile(name: string, content: string) | JsonFile(file: Pipeline.DialogueFile)

  /** The summary, the writes in order, and the exception that ended the run, if any. */
  datatype Run = Run(summary: Summary, writes: seq<Write>, raised: Option<Exception>)

  const Start: Run := Run(Summary([], [], []), [], None)

  /** `str(s) in filter` for the selected ids; an empty selection selects everything. */
  predicate Matches(ids: seq<int>, id: string) {
    |ids| == 0 || exists k :: 0 <= k < |ids| && IntToString(ids[k]) == id
  }

  predicate Selected(env: Env, rec: Discovery.DocumentRecord) {
    Matches(env.students, rec.student) && Matches(env.weeks, rec.week)
  }

  function ExtractedName(rec: Discovery.DocumentRecord): string {
    "S" + rec.student + "_W" + rec.week + ".txt"
  }

  function OutputName(rec: Discovery.DocumentRecord, taskIdx: int): string {
    Pipeline.DialogueId(rec.student, rec.week, taskIdx) + ".json"
  }

  function LabelsOf(env: Env, rec: Discovery.DocumentRecord): LabelSetConfig {
    if rec.labelSet in env.labelSets then env.labelSets[rec.labelSet] else LabelSetConfig([], [])
  }

  function AddSkipped(r: Run, s: Skipped): Run {
    r.(summary := r.summary.(skipped := r.summary.skipped + [s]))
  }

  function AddFailure(r: Run, f: Failure): Run {
    r.(summary := r.summary.(errors := r.summary.errors + [f]))
  }

  function AddProcessed(r: Run, p: Processed, file: Pipeline.DialogueFile): Run {
    r.(summary := r.summary.(processed := r.summary.processed + [p]), writes := r.writes + [JsonFile(file)])
  }

  /** One iteration of the task loop, for the task numbered `taskIdx`. */
  function TaskStep(env: Env, rec: Discovery.DocumentRecord, r: Run, taskIdx: int, task: TaskSplitter.Task): Run {
    var out := OutputName(rec, taskIdx);
    if Pipeline.ShouldSkipOutput(env.force, env.outputMtime(out), rec.mtime) then
      AddSkipped(r, Skipped(rec.student, rec.week, Some(taskIdx), UpToDate))
    else
      var turns := Pipeline.TurnsForTask(task.body, rec.suffix == ".pdf");
      if |turns| == 0 then AddFailure(r, Failure(rec.student, rec.week, Some(taskIdx), NoTurnsParsed))
      else if env.dryRun then r
      else
        var meta := Pipeline.FormatDialogueMetadata(rec, taskIdx, task.name);
        AddProcessed(r, Processed(rec.student, rec.week, taskIdx, out, |turns|), Pipeline.SaveIntended(turns, out, meta))
  }

  /** The task loop over `enumerate(tasks, start=1)`. */
  function TasksRun(env: Env, rec: Discovery.DocumentRecord, r: Run, tasks: seq<TaskSplitter.Task>): Run
    decreases |tasks|
  {
    if |tasks| == 0 then r
    else TaskStep(env, rec, TasksRun(env, rec, r, tasks[..|tasks| - 1]), |tasks|, tasks[|tasks| - 1])
  }

  /** One iteration of the document loop. */
  function DocStep(env: Env, r: Run, rec: Discovery.DocumentRecord): Run {
    if r.raised.Some? || !Selected(env, rec) then r
    else
      match env.extract(rec.path)
      case None => AddFailure(r, Failure(rec.student, rec.week, None, ExtractionFailed))
      case Some(raw) =>
        var text := Pipeline.FilterSkip(raw, env.skipKeywords).0;
        if |Strip(text)| < 50 then AddSkipped(r, Skipped(rec.student, rec.week, None, NoContentAfterFiltering))
        else
          var r1 := r.(writes := r.writes + [TextFile(ExtractedName(rec), text)]);
          var labels := LabelsOf(env, rec);
          match Pipeline.ParseTasksIntended(Pipeline.Normalized(text, labels.learner, labels.bot))
          case Err(e) => r1.(raised := Some(e))
          case Ok(tasks) => TasksRun(env, rec, r1, tasks)
  }

  /** The document loop; once an exception is raised nothing further happens. */
  function RunFrom(env: Env, docs: seq<Discovery.DocumentRecord>): Run
    decreases |docs|
  {
    if |docs| == 0 then Start else DocStep(env, RunFrom(env, docs[..|docs| - 1]), docs[|docs| - 1])
  }

  /** What `run_pipeline` does with the documents discovered in the listing `files`. */
  function PipelineRun(env: Env, config: Discovery.Config, files: seq<Discovery.FileEntry>): Run {
    RunFrom(env, Discovery.Discovered(config, files))
  }

  /**
   * One iteration of the document loop as written: `parse_tasks_for_document`
   * passes `expected_tasks=` to the splitter, which does not declare it.
   */
  function DocStepAsWritten(env: Env, r: Run, rec: Discovery.DocumentRecord): Run {
    if r.raised.Some? || !Selected(env, rec) then r
    else
      match env.extract(rec.path)
      case None => AddFailure(r, Failure(rec.student, rec.week, None, ExtractionFailed))
      case Some(raw) =>
        var text := Pipeline.FilterSkip(raw, env.skipKeywords).0;
        if |Strip(text)| < 50 then AddSkipped(r, Skipped(rec.student, rec.week, None, NoContentAfterFiltering))
        else
          var r1 := r.(writes := r.writes + [TextFile(ExtractedName(rec), text)]);
          var labels := LabelsOf(env, rec);
          match Pipeline.ParseTasksAsWritten(Pipeline.Normalized(text, labels.learner, labels.bot), Discovery.IdValue(rec.week), rec.expectedTasks)
          case Err(e) => r1.(raised := Some(e))
          case Ok(tasks) => TasksRun(env, rec, r1, tasks)
  }

  /** The document loop as written. */
  function RunFromAsWritten(env: Env, docs: seq<Discovery.DocumentRecord>): Run
    decreases |docs|
  {
    if |docs| == 0 then Start else DocStepAsWritten(env, RunFromAsWritten(env, docs[..|docs| - 1]), docs[|docs| - 1])
  }

  /** The document's text after the skip sections are removed. */
  function FilteredText(env: Env, rec: Discovery.DocumentRecord): string
    requires env.extract(rec.path).Some?
  {
    Pipeline.FilterSkip(env.extract(rec.path).value, env.skipKeywords).0
  }

  /** The document gets as far as `parse_tasks_for_document`. */
  predicate ReachesSplit(env: Env, r: Run, rec: Discovery.DocumentRecord) {
    r.raised.None? && Selected(env, rec) && env.extract(rec.path).Some? && |Strip(FilteredText(env, rec))| >= 50
  }

  /**
   * As written, the first document that reaches task splitting ends the run
   * with `TypeError`, right after its extracted text is written; the other
   * documents are handled as in the corrected step.
   */
  lemma DocStepAsWrittenRaises(env: Env, r: Run, rec: Discovery.DocumentRecord)
    ensures ReachesSplit(env, r, rec) ==>
      DocStepAsWritten(env, r, rec) ==
        r.(writes := r.writes + [TextFile(ExtractedName(rec), FilteredText(env, rec))], raised := Some(TypeError))
    ensures !ReachesSplit(env, r, rec) ==> DocStepAsWritten(env, r, rec) == DocStep(env, r, rec)
  {
    if r.raised.None? && Selected(env, rec) && env.extract(rec.path).Some? {
      var text := FilteredText(env, rec);
      var labels := LabelsOf(env, rec);
      Pipeline.ParseTasksAlwaysRaises(Pipeline.Normalized(text, labels.learner, labels.bot), Discovery.IdValue(rec.week), rec.expectedTasks);
    }
  }

  /** As written, the run saves no dialogue and reports no task as processed. */
  lemma {:induction false} AsWrittenSavesNothing(env: Env, docs: seq<Discovery.DocumentRecord>)
    ensures RunFromAsWritten(env, docs).summary.processed == []
    ensures forall k :: 0 <= k < |RunFromAsWritten(env, docs).writes| ==> RunFromAsWritten(env, docs).writes[k].TextFile?
    decreases |docs|
  {
    if |docs| > 0 {
      var prev := RunFromAsWritten(env, docs[..|docs| - 1]);
      AsWrittenSavesNothing(env, docs[..|docs| - 1]);
      DocStepAsWrittenRaises(env, prev, docs[|docs| - 1]);
    }
  }

  // ---------------------------------------------------------------------
  // The loops.
  // ---------------------------------------------------------------------

  method ProcessTasks(env: Env, rec: Discovery.DocumentRecord, r0: Run, tasks: seq<TaskSplitter.Task>) returns (r: Run)
    ensures r == TasksRun(env, rec, r0, tasks)
  {
    r := r0;
    for k := 0 to |tasks|
      invariant r == TasksRun(env, rec, r0, tasks[..k])
    {
      assert tasks[..k + 1][..k] == tasks[..k];
      var taskIdx := k + 1;
      var task := tasks[k];
      var out := OutputName(rec, taskIdx);
      if Pipeline.ShouldSkipOutput(env.force, env.outputMtime(out), rec.mtime) {
        r := AddSkipped(r, Skipped(rec.student, rec.week, Some(taskIdx), UpToDate));
      } else {
        var turns := Pipeline.ParseTurnsForTask(task.body, rec.suffix == ".pdf");
        if |turns| == 0 {
          r := AddFailure(r, Failure(rec.student, rec.week, Some(taskIdx), NoTurnsParsed));
        } else if !env.dryRun {
          var meta := Pipeline.FormatDialogueMetadata(rec, taskIdx, task.name);
          r := AddProcessed(r, Processed(rec.student, rec.week, taskIdx, out, |turns|), Pipeline.SaveIntended(turns, out, meta));
        }
      }
    }
    assert tasks[..|tasks|] == tasks;
  }

  method ProcessDocument(env: Env, r0: Run, rec: Discovery.DocumentRecord) returns (r: Run)
    requires r0.raised.None?
    ensures r == DocStep(env, r0, rec)
  {
    if !Selected(env, rec) {
      return r0;
    }
    var extracted := env.extract(rec.path);
    if extracted.None? {
      return AddFailure(r0, Failure(rec.student, rec.week, None, ExtractionFailed));
    }
    var text, removed := Pipeline.FilterSkipSections(extracted.value, env.skipKeywords);
    if |Strip(text)| < 50 {
      return AddSkipped(r0, Skipped(rec.student, rec.week, None, NoContentAfterFiltering));
    }
    r := r0.(writes := r0.writes + [TextFile(ExtractedName(rec), text)]);
    var labels := LabelsOf(env, rec);
    var normalized := Pipeline.NormalizeLabels(text, labels.learner, labels.bot);
    var tasks := Pipeline.ParseTasksForDocument(normalized, Discovery.IdValue(rec.week));
    if tasks.Err? {
      return r.(raised := Some(tasks.error));
    }
    r := ProcessTasks(env, rec, r, tasks.value);
  }

  /** Once raised, an exception ends the run: the remaining documents change nothing. */
  lemma {:induction false} RaisedStops(env: Env, docs: seq<Discovery.DocumentRecord>, i: nat)
    requires i <= |docs| && RunFrom(env, docs[..i]).raised.Some?
    ensures RunFrom(env, docs) == RunFrom(env, docs[..i])
    decreases |docs| - i
  {
    if i < |docs| {
      assert docs[..i + 1][..i] == docs[..i];
      RaisedStops(env, docs, i + 1);
    } else {
      assert docs[..i] == docs;
    }
  }

  lemma RunFromSnoc(env: Env, docs: seq<Discovery.DocumentRecord>, i: nat)
    requires i < |docs|
    ensures RunFrom(env, docs[..i + 1]) == DocStep(env, RunFrom(env, docs[..i]), docs[i])
  {
    assert docs[..i + 1][..i] == docs[..i];
  }

  /** The loop over the discovered documents; a raise ends the run. */
  method RunDocuments(env: Env, documents: seq<Discovery.DocumentRecord>) returns (r: Run)
    ensures r == RunFrom(env, documents)
  {
    r := Start;
    for i := 0 to |documents|
      invariant r == RunFrom(env, documents[..i]) && r.raised.None?
    {
      RunFromSnoc(env, documents, i);
      r := ProcessDocument(env, r, documents[i]);
      if r.raised.Some? {
        RaisedStops(env, documents, i + 1);
        return r;
      }
    }
    assert documents[..|documents|] == documents;
  }

  method RunPipeline(env: Env, config: Discovery.Config, files: seq<Discovery.FileEntry>) returns (r: Run)
    ensures r == PipelineRun(env, config, files)
  {
    var documents := Discovery.DiscoverDocuments(config, files);
    r := RunDocuments(env, documents);
  }

  // ---------------------------------------------------------------------
  // Properties.
  // ---------------------------------------------------------------------

  /** The dialogues among the writes, in order. */
  function Dialogues(ws: seq<Write>): seq<Pipeline.DialogueFile>
    decreases |ws|
  {
    if |ws| == 0 then []
    else
      var prev := Dialogues(ws[..|ws| - 1]);
      if ws[|ws| - 1].JsonFile? then prev + [ws[|ws| - 1].file] else prev
  }

  /** A saved dialogue: non-empty turns numbered from one, metadata whose id names the file. */
  predicate GoodDialogue(f: Pipeline.DialogueFile) {
    |f.turns| > 0 && NumberedFromOne(f.turns) && f.meta.Some? &&
    f.meta.value.dialogueId + ".json" == f.path && 1 <= f.meta.value.task <= 3
  }

  /**
   * Every processed entry of the summary is backed by a saved dialogue, in
   * the same order, with the same file name and number of turns; every
   * saved dialogue is well formed.
   */
  predicate Consistent(r: Run) {
    var ds := Dialogues(r.writes);
    |ds| == |r.summary.processed| &&
    (forall k :: 0 <= k < |ds| ==> ds[k].path == r.summary.processed[k].file && |ds[k].turns| == r.summary.processed[k].turns) &&
    (forall k :: 0 <= k < |ds| ==> GoodDialogue(ds[k]))
  }

  lemma DialoguesSnoc(ws: seq<Write>, w: Write)
    ensures Dialogues(ws + [w]) == if w.JsonFile? then Dialogues(ws) + [w.file] else Dialogues(ws)
  {
    assert (ws + [w])[..|ws|] == ws;
  }

  /** One task keeps the summary and the saved dialogues in step, and raises nothing. */
  lemma TaskStepConsistent(env: Env, rec: Discovery.DocumentRecord, r: Run, taskIdx: int, task: TaskSplitter.Task)
    requires Consistent(r) && 1 <= taskIdx <= 3
    ensures Consistent(TaskStep(env, rec, r, taskIdx, task))
    ensures TaskStep(env, rec, r, taskIdx, task).raised == r.raised
  {
    var out := OutputName(rec, taskIdx);
    var turns := Pipeline.TurnsForTask(task.body, rec.suffix == ".pdf");
    if !Pipeline.ShouldSkipOutput(env.force, env.outputMtime(out), rec.mtime) && |turns| > 0 && !env.dryRun {
      var meta := Pipeline.FormatDialogueMetadata(rec, taskIdx, task.name);
      DialoguesSnoc(r.writes, JsonFile(Pipeline.SaveIntended(turns, out, meta)));
      Pipeline.TurnsForTaskNumbered(task.body, rec.suffix == ".pdf");
    } else {
      assert TaskStep(env, rec, r, taskIdx, task).writes == r.writes;
    }
  }

  lemma {:induction false} TasksRunConsistent(env: Env, rec: Discovery.DocumentRecord, r: Run, tasks: seq<TaskSplitter.Task>)
    requires Consistent(r) && |tasks| <= 3
    ensures Consistent(TasksRun(env, rec, r, tasks))
    ensures TasksRun(env, rec, r, tasks).raised == r.raised
    decreases |tasks|
  {
    if |tasks| > 0 {
      TasksRunConsistent(env, rec, r, tasks[..|tasks| - 1]);
      TaskStepConsistent(env, rec, TasksRun(env, rec, r, tasks[..|tasks| - 1]), |tasks|, tasks[|tasks| - 1]);
    }
  }

  lemma DocStepConsistent(env: Env, r: Run, rec: Discovery.DocumentRecord)
    requires Consistent(r)
    ensures Consistent(DocStep(env, r, rec))
  {
    if r.raised.None? && Selected(env, rec) && env.extract(rec.path).Some? {
      var text := Pipeline.FilterSkip(env.extract(rec.path).value, env.skipKeywords).0;
      if |Strip(text)| >= 50 {
        var r1 := r.(writes := r.writes + [TextFile(ExtractedName(rec), text)]);
        DialoguesSnoc(r.writes, TextFile(ExtractedName(rec), text));
        var labels := LabelsOf(env, rec);
        var normalized := Pipeline.Normalized(text, labels.learner, labels.bot);
        Pipeline.ParseTasksIntendedSpec(normalized);
        if Pipeline.ParseTasksIntended(normalized).Ok? {
          TasksRunConsistent(env, rec, r1, Pipeline.ParseTasksIntended(normalized).value);
        }
      }
    }
  }

  /** Throughout the run, the processed entries and the saved dialogues correspond one to one. */
  lemma {:induction false} RunConsistent(env: Env, docs: seq<Discovery.DocumentRecord>)
    ensures Consistent(RunFrom(env, docs))
    decreases |docs|
  {
    if |docs| > 0 {
      RunConsistent(env, docs[..|docs| - 1]);
      DocStepConsistent(env, RunFrom(env, docs[..|docs| - 1]), docs[|docs| - 1]);
    }
  }

  /** Texts are written only for documents with at least 50 characters left after filtering and stripping. */
  predicate TextsHaveContent(ws: seq<Write>) {
    forall k :: 0 <= k < |ws| && ws[k].TextFile? ==> |Strip(ws[k].content)| >= 50
  }

  lemma {:induction false} TasksRunKeepsTexts(env: Env, rec: Discovery.DocumentRecord, r: Run, tasks: seq<TaskSplitter.Task>)
    requires TextsHaveContent(r.writes)
    ensures TextsHaveContent(TasksRun(env, rec, r, tasks).writes)
    decreases |tasks|
  {
    if |tasks| > 0 {
      TasksRunKeepsTexts(env, rec, r, tasks[..|tasks| - 1]);
    }
  }

  lemma {:induction false} RunTextsHaveContent(env: Env, docs: seq<Discovery.DocumentRecord>)
    ensures TextsHaveContent(RunFrom(env, docs).writes)
    decreases |docs|
  {
    if |docs| > 0 {
      var r := RunFrom(env, docs[..|docs| - 1]);
      var rec := docs[|docs| - 1];
      RunTextsHaveContent(env, docs[..|docs| - 1]);
      if r.raised.None? && Selected(env, rec) && env.extract(rec.path).Some? {
        var text := Pipeline.FilterSkip(env.extract(rec.path).value, env.skipKeywords).0;
        if |Strip(text)| >= 50 {
          var r1 := r.(writes := r.writes + [TextFile(ExtractedName(rec), text)]);
          var labels := LabelsOf(env, rec);
          var normalized := Pipeline.Normalized(text, labels.learner, labels.bot);
          if Pipeline.ParseTasksIntended(normalized).Ok? {
            TasksRunKeepsTexts(env, rec, r1, Pipeline.ParseTasksIntended(normalized).value);
          }
        }
      }
    }
  }

  lemma {:induction false} DryTasksRun(env: Env, rec: Discovery.DocumentRecord, r: Run, tasks: seq<TaskSplitter.Task>)
    requires env.dryRun
    ensures TasksRun(env, rec, r, tasks).writes == r.writes
    ensures TasksRun(env, rec, r, tasks).summary.processed == r.summary.processed
    decreases |tasks|
  {
    if |tasks| > 0 {
      DryTasksRun(env, rec, r, tasks[..|tasks| - 1]);
    }
  }

  /** A dry run saves no dialogue and reports none as processed; it still writes the extracted texts. */
  lemma {:induction false} DryRunSavesNothing(env: Env, docs: seq<Discovery.DocumentRecord>)
    requires env.dryRun
    ensures Dialogues(RunFrom(env, docs).writes) == []
    ensures RunFrom(env, docs).summary.processed == []
    decreases |docs|
  {
    if |docs| > 0 {
      var r := RunFrom(env, docs[..|docs| - 1]);
      var rec := docs[|docs| - 1];
      DryRunSavesNothing(env, docs[..|docs| - 1]);
      if r.raised.None? && Selected(env, rec) && env.extract(rec.path).Some? {
        var text := Pipeline.FilterSkip(env.extract(rec.path).value, env.skipKeywords).0;
        if |Strip(text)| >= 50 {
          var r1 := r.(writes := r.writes + [TextFile(ExtractedName(rec), text)]);
          DialoguesSnoc(r.writes, TextFile(ExtractedName(rec), text));
          var labels := LabelsOf(env, rec);
          var normalized := Pipeline.Normalized(text, labels.learner, labels.bot);
          if Pipeline.ParseTasksIntended(normalized).Ok? {
            DryTasksRun(env, rec, r1, Pipeline.ParseTasksIntended(normalized).value);
          }
        }
      }
    }
  }

  /** The documents the student and week filters let through, in order. */
  function SelectedDocs(env: Env, docs: seq<Discovery.DocumentRecord>): (r: seq<Discovery.DocumentRecord>)
    ensures forall k :: 0 <= k < |r| ==> Selected(env, r[k])
    decreases |docs|
  {
    if |docs| == 0 then []
    else
      var prev := SelectedDocs(env, docs[..|docs| - 1]);
      if Selected(env, docs[|docs| - 1]) then prev + [docs[|docs| - 1]] else prev
  }

  /** The filters only skip documents: running on the documents they select gives the same run. */
  lemma {:induction false} FiltersOnlySkip(env: Env, docs: seq<Discovery.DocumentRecord>)
    ensures RunFrom(env, SelectedDocs(env, docs)) == RunFrom(env, docs)
    decreases |docs|
  {
    if |docs| > 0 {
      var init := docs[..|docs| - 1];
      FiltersOnlySkip(env, init);
      var last := docs[|docs| - 1];
      if Selected(env, last) {
        var s := SelectedDocs(env, init) + [last];
        assert s[..|s| - 1] == SelectedDocs(env, init);
      }
    }
  }

  /** A document whose text cannot be extracted is reported as an error and nothing is written for it. */
  lemma ExtractionFailureReported(env: Env, r: Run, rec: Discovery.DocumentRecord)
    requires r.raised.None? && Selected(env, rec) && env.extract(rec.path).None?
    ensures DocStep(env, r, rec).writes == r.writes
    ensures DocStep(env, r, rec).summary.errors == r.summary.errors + [Failure(rec.student, rec.week, None, ExtractionFailed)]
  {
  }

  /** A document left with under 50 characters is reported as skipped and nothing is written for it. */
  lemma ShortDocumentSkipped(env: Env, r: Run, rec: Discovery.DocumentRecord)
    requires r.raised.None? && Selected(env, rec) && env.extract(rec.path).Some?
    requires |Strip(Pipeline.FilterSkip(env.extract(rec.path).value, env.skipKeywords).0)| < 50
    ensures DocStep(env, r, rec).writes == r.writes
    ensures DocStep(env, r, rec).summary.skipped ==
      r.summary.skipped + [Skipped(rec.student, rec.week, None, NoContentAfterFiltering)]
  {
  }
}
