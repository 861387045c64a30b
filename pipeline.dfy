/**
 * The per-document helpers of `preprocessing_pipeline`: label
 * normalisation, skip-section filtering, the up-to-date test, the calls
 * into the task splitter and the turn parsers, and the dialogue metadata.
 */
module Pipeline {
  import opened Wrappers
  import opened Text
  import opened Dialogue
  import LabelledParser
  import UnlabelledParser
  import TaskSplitter
  import Discovery

  // ---------------------------------------------------------------------
  // normalize_labels
  // ---------------------------------------------------------------------

  const LearnerCanonical: string := "You said:"
  const BotCanonical: string := "English Conversational Partner said:"

  /**
   * `re.compile(re.escape(label), re.IGNORECASE).sub(canonical, s[i:])`:
   * the label is a literal, so each scan position either matches it or
   * not; after a match the scan resumes behind it.
   */
  function ReplaceFrom(s: string, lbl: string, canonical: string, i: nat): string
    requires |lbl| > 0 && i <= |s|
    decreases |s| - i
  {
    if i == |s| then ""
    else if StartsAtCI(s, i, lbl) then canonical + ReplaceFrom(s, lbl, canonical, i + |lbl|)
    else [s[i]] + ReplaceFrom(s, lbl, canonical, i + 1)
  }

  /** `replace_labels`: each non-empty label in turn is replaced in the text left by the previous ones. */
  function ReplaceAll(s: string, labels: seq<string>, canonical: string): string
    decreases |labels|
  {
    if |labels| == 0 then s
    else
      var t := ReplaceAll(s, labels[..|labels| - 1], canonical);
      var lbl := labels[|labels| - 1];
      if lbl == "" then t else ReplaceFrom(t, lbl, canonical, 0)
  }

  /** The text `normalize_labels` returns. */
  function Normalized(text: string, learner: seq<string>, bot: seq<string>): string {
    ReplaceAll(ReplaceAll(text, learner, LearnerCanonical), bot, BotCanonical)
  }

  method ReplaceLabels(content: string, labels: seq<string>, canonical: string) returns (r: string)
    ensures r == ReplaceAll(content, labels, canonical)
  {
    r := content;
    for k := 0 to |labels|
      invariant r == ReplaceAll(content, labels[..k], canonical)
    {
      assert labels[..k + 1][..k] == labels[..k];
      if labels[k] != "" {
        r := ReplaceFrom(r, labels[k], canonical, 0);
      }
    }
    assert labels[..|labels|] == labels;
  }

  method NormalizeLabels(text: string, learner: seq<string>, bot: seq<string>) returns (r: string)
    ensures r == Normalized(text, learner, bot)
  {
    r := ReplaceLabels(text, learner, LearnerCanonical);
    r := ReplaceLabels(r, bot, BotCanonical);
  }

  /** No occurrence of the label from `i` on: the rest of the text is returned unchanged. */
  lemma {:induction false} ReplaceFromNoMatch(s: string, lbl: string, canonical: string, i: nat)
    requires |lbl| > 0 && i <= |s|
    requires forall j :: i <= j <= |s| ==> !StartsAtCI(s, j, lbl)
    ensures ReplaceFrom(s, lbl, canonical, i) == s[i..]
    decreases |s| - i
  {
    if i < |s| {
      ReplaceFromNoMatch(s, lbl, canonical, i + 1);
      assert s[i..] == [s[i]] + s[i + 1..];
    }
  }

  lemma LowerAppend(a: string, b: string)
    ensures Lower(a + b) == Lower(a) + Lower(b)
  {
  }

  /**
   * Replacing a label by a canonical label that differs from it only in
   * letter case changes nothing but letter case.
   */
  lemma {:induction false} ReplaceFromCaseOnly(s: string, lbl: string, canonical: string, i: nat)
    requires |lbl| > 0 && i <= |s| && Lower(lbl) == Lower(canonical)
    ensures Lower(ReplaceFrom(s, lbl, canonical, i)) == Lower(s[i..])
    decreases |s| - i
  {
    if i < |s| {
      if StartsAtCI(s, i, lbl) {
        var j := i + |lbl|;
        ReplaceFromCaseOnly(s, lbl, canonical, j);
        LowerAppend(canonical, ReplaceFrom(s, lbl, canonical, j));
        assert s[i..] == s[i..j] + s[j..];
        LowerAppend(s[i..j], s[j..]);
      } else {
        ReplaceFromCaseOnly(s, lbl, canonical, i + 1);
        LowerAppend([s[i]], ReplaceFrom(s, lbl, canonical, i + 1));
        assert s[i..] == [s[i]] + s[i + 1..];
        LowerAppend([s[i]], s[i + 1..]);
      }
    }
  }

  /** No label of the list occurs in the text. */
  predicate NoLabelIn(s: string, labels: seq<string>) {
    forall k, j :: 0 <= k < |labels| && 0 <= j <= |s| && labels[k] != "" ==> !StartsAtCI(s, j, labels[k])
  }

  lemma {:induction false} ReplaceAllNoMatch(s: string, labels: seq<string>, canonical: string)
    requires NoLabelIn(s, labels)
    ensures ReplaceAll(s, labels, canonical) == s
    decreases |labels|
  {
    if |labels| > 0 {
      var init := labels[..|labels| - 1];
      assert NoLabelIn(s, init) by {
        forall k, j | 0 <= k < |init| && 0 <= j <= |s| && init[k] != "" ensures !StartsAtCI(s, j, init[k]) {
          assert init[k] == labels[k];
        }
      }
      ReplaceAllNoMatch(s, init, canonical);
      var lbl := labels[|labels| - 1];
      if lbl != "" {
        ReplaceFromNoMatch(s, lbl, canonical, 0);
      }
    }
  }

  /** A text in which no alternate label occurs comes out of `normalize_labels` unchanged. */
  lemma NormalizedUnchanged(text: string, learner: seq<string>, bot: seq<string>)
    requires NoLabelIn(text, learner) && NoLabelIn(text, bot)
    ensures Normalized(text, learner, bot) == text
  {
    ReplaceAllNoMatch(text, learner, LearnerCanonical);
    ReplaceAllNoMatch(text, bot, BotCanonical);
  }

  /** Empty labels are skipped, so a list of them changes nothing. */
  lemma {:induction false} EmptyLabelsSkipped(s: string, labels: seq<string>, canonical: string)
    requires forall k :: 0 <= k < |labels| ==> labels[k] == ""
    ensures ReplaceAll(s, labels, canonical) == s
    decreases |labels|
  {
    if |labels| > 0 {
      EmptyLabelsSkipped(s, labels[..|labels| - 1], canonical);
    }
  }

  // ---------------------------------------------------------------------
  // filter_skip_sections
  // ---------------------------------------------------------------------

  /** The loop's state: in a skipped section or not, the lines kept, the notes on removed sections. */
  datatype FilterState = FilterState(skip: bool, kept: seq<string>, removed: seq<string>)

  /** The start test: `keyword and keyword.lower() in line.lower()` for some keyword. */
  predicate ContainsSkip(line: string, keywords: seq<string>) {
    exists k :: 0 <= k < |keywords| && keywords[k] != "" && ContainsCI(line, keywords[k])
  }

  /** The end test's keyword check, which has no guard against an empty keyword. */
  predicate AnyKeyword(line: string, keywords: seq<string>) {
    exists k :: 0 <= k < |keywords| && ContainsCI(line, keywords[k])
  }

  /** A case-sensitive dialogue marker ends a skipped section. */
  predicate HasDialogueMarker(line: string) {
    Contains(line, "You said:") || Contains(line, "English Conversational Partner said:") ||
    Contains(line, "Task") || Contains(line, "Week")
  }

  function Prefix100(line: string): string {
    if |line| <= 100 then line else line[..100]
  }

  /** The note for a section starting at line index `i`. */
  function RemovedEntry(i: nat, line: string): string {
    "Line " + NatToString(i + 1) + ": " + Prefix100(line) + "..."
  }

  /** `removed_sections[-1] += suffix`. */
  function AppendLast(notes: seq<string>, suffix: string): (r: seq<string>)
    requires |notes| > 0
    ensures |r| == |notes| && r[..|r| - 1] == notes[..|notes| - 1]
  {
    notes[..|notes| - 1] + [notes[|notes| - 1] + suffix]
  }

  predicate FilterOk(st: FilterState) {
    st.skip ==> |st.removed| > 0
  }

  /** One iteration of the loop, on line index `i`. */
  function FilterStep(st: FilterState, i: nat, line: string, keywords: seq<string>): (r: FilterState)
    requires FilterOk(st)
    ensures FilterOk(r)
  {
    if ContainsSkip(line, keywords) && !st.skip then
      FilterState(true, st.kept, st.removed + [RemovedEntry(i, line)])
    else if st.skip then
      if HasDialogueMarker(line) && !AnyKeyword(line, keywords) then
        FilterState(false, st.kept + [line], AppendLast(st.removed, " -> ended at line " + NatToString(i + 1)))
      else st
    else FilterState(false, st.kept + [line], st.removed)
  }

  /** The state after the loop has seen `lines`. */
  function Filter(lines: seq<string>, keywords: seq<string>): (r: FilterState)
    ensures FilterOk(r)
    decreases |lines|
  {
    if |lines| == 0 then FilterState(false, [], [])
    else FilterStep(Filter(lines[..|lines| - 1], keywords), |lines| - 1, lines[|lines| - 1], keywords)
  }

  /** What `filter_skip_sections` returns: the kept text and the notes on removed sections. */
  function FilterSkip(text: string, keywords: seq<string>): (string, seq<string>) {
    if |keywords| == 0 then (text, [])
    else
      var st := Filter(SplitOn(text, '\n'), keywords);
      (Join(st.kept, "\n"), if st.skip then AppendLast(st.removed, " -> end of document") else st.removed)
  }

  method FilterSkipSections(text: string, keywords: seq<string>) returns (filtered: string, removed: seq<string>)
    ensures (filtered, removed) == FilterSkip(text, keywords)
  {
    if |keywords| == 0 {
      return text, [];
    }
    var lines := SplitOn(text, '\n');
    var kept: seq<string> := [];
    var skipMode := false;
    removed := [];
    for i := 0 to |lines|
      invariant FilterState(skipMode, kept, removed) == Filter(lines[..i], keywords)
    {
      assert lines[..i + 1][..i] == lines[..i];
      var line := lines[i];
      if ContainsSkip(line, keywords) && !skipMode {
        skipMode := true;
        removed := removed + [RemovedEntry(i, line)];
      } else if skipMode {
        if HasDialogueMarker(line) && !AnyKeyword(line, keywords) {
          skipMode := false;
          kept := kept + [line];
          removed := AppendLast(removed, " -> ended at line " + NatToString(i + 1));
        }
      } else {
        kept := kept + [line];
      }
    }
    assert lines[..|lines|] == lines;
    if skipMode {
      removed := AppendLast(removed, " -> end of document");
    }
    filtered := Join(kept, "\n");
  }

  /** `xs` is a subsequence of `ys`. */
  predicate SubseqOf(xs: seq<string>, ys: seq<string>)
    decreases |ys|
  {
    if |xs| == 0 then true
    else if |ys| == 0 then false
    else if xs[|xs| - 1] == ys[|ys| - 1] then SubseqOf(xs[..|xs| - 1], ys[..|ys| - 1])
    else SubseqOf(xs, ys[..|ys| - 1])
  }

  lemma {:induction false} SubseqDropLast(xs: seq<string>, ys: seq<string>)
    requires |xs| > 0 && SubseqOf(xs, ys)
    ensures SubseqOf(xs[..|xs| - 1], ys)
    decreases |ys|, 0
  {
    var init := xs[..|xs| - 1];
    if |init| > 0 && |ys| > 0 {
      if xs[|xs| - 1] == ys[|ys| - 1] {
        SubseqExtend(init, ys[..|ys| - 1], ys[|ys| - 1]);
        assert ys[..|ys| - 1] + [ys[|ys| - 1]] == ys;
      } else {
        SubseqDropLast(xs, ys[..|ys| - 1]);
        SubseqExtend(init, ys[..|ys| - 1], ys[|ys| - 1]);
        assert ys[..|ys| - 1] + [ys[|ys| - 1]] == ys;
      }
    }
  }

  /** A subsequence stays one when the sequence grows. */
  lemma {:induction false} SubseqExtend(xs: seq<string>, ys: seq<string>, y: string)
    requires SubseqOf(xs, ys)
    ensures SubseqOf(xs, ys + [y])
    decreases |ys|, 1
  {
    var zs := ys + [y];
    assert zs[..|zs| - 1] == ys;
    if |xs| > 0 && xs[|xs| - 1] == y {
      SubseqDropLast(xs, ys);
    }
  }

  /** The loop's state: the kept lines are a subsequence of the lines seen. */
  lemma {:induction false} FilterKeepsSubseq(lines: seq<string>, keywords: seq<string>)
    ensures SubseqOf(Filter(lines, keywords).kept, lines)
    decreases |lines|
  {
    if |lines| > 0 {
      var init := lines[..|lines| - 1];
      var last := lines[|lines| - 1];
      FilterKeepsSubseq(init, keywords);
      var prev := Filter(init, keywords).kept;
      SubseqExtend(prev, init, last);
      assert init + [last] == lines;
      var cur := Filter(lines, keywords).kept;
      if cur != prev {
        assert cur == prev + [last];
        assert cur[..|cur| - 1] == prev;
      }
    }
  }

  /** Line by line: nothing is removed exactly when no line holds a non-empty keyword; otherwise lines are only dropped. */
  lemma FilterRemovedIff(lines: seq<string>, keywords: seq<string>)
    ensures Filter(lines, keywords).removed == [] <==>
      forall j :: 0 <= j < |lines| ==> !ContainsSkip(lines[j], keywords)
    ensures Filter(lines, keywords).removed == [] ==> Filter(lines, keywords) == FilterState(false, lines, [])
  {
    NothingRemovedIff(lines, keywords);
    NothingRemovedKeepsAll(lines, keywords);
  }

  lemma {:induction false} NothingRemovedIff(lines: seq<string>, keywords: seq<string>)
    ensures Filter(lines, keywords).removed == [] <==>
      forall j :: 0 <= j < |lines| ==> !ContainsSkip(lines[j], keywords)
    decreases |lines|
  {
    if |lines| > 0 {
      var init := lines[..|lines| - 1];
      NothingRemovedIff(init, keywords);
      FilterStepRemoved(Filter(init, keywords), |lines| - 1, lines[|lines| - 1], keywords);
      assert forall j :: 0 <= j < |init| ==> init[j] == lines[j];
    }
  }

  lemma {:induction false} NothingRemovedKeepsAll(lines: seq<string>, keywords: seq<string>)
    ensures Filter(lines, keywords).removed == [] ==> Filter(lines, keywords) == FilterState(false, lines, [])
    decreases |lines|
  {
    if |lines| > 0 {
      var init := lines[..|lines| - 1];
      NothingRemovedKeepsAll(init, keywords);
      FilterStepRemoved(Filter(init, keywords), |lines| - 1, lines[|lines| - 1], keywords);
      assert init + [lines[|lines| - 1]] == lines;
    }
  }

  /** One line leaves the notes empty exactly when they were empty and the line has no skip keyword. */
  lemma FilterStepRemoved(st: FilterState, i: nat, line: string, keywords: seq<string>)
    requires FilterOk(st)
    ensures FilterStep(st, i, line, keywords).removed == [] <==> st.removed == [] && !ContainsSkip(line, keywords)
    ensures FilterStep(st, i, line, keywords).removed == [] ==>
      FilterStep(st, i, line, keywords) == FilterState(false, st.kept + [line], [])
  {
  }

  /** A text none of whose lines holds a keyword passes through unchanged, with nothing reported. */
  lemma FilterSkipUnchanged(text: string, keywords: seq<string>)
    requires forall line :: line in SplitOn(text, '\n') ==> !ContainsSkip(line, keywords)
    ensures FilterSkip(text, keywords) == (text, [])
  {
    if |keywords| > 0 {
      var lines := SplitOn(text, '\n');
      FilterRemovedIff(lines, keywords);
      JoinSplitOn(text, '\n');
    }
  }

  /** Some line holds a keyword: the text is reported as filtered. */
  lemma FilterSkipReports(text: string, keywords: seq<string>)
    requires exists line :: line in SplitOn(text, '\n') && ContainsSkip(line, keywords)
    ensures |FilterSkip(text, keywords).1| > 0
  {
    var lines := SplitOn(text, '\n');
    FilterRemovedIff(lines, keywords);
  }

  /** The kept lines are a subsequence of the text's lines. */
  lemma FilterSkipKeepsLines(text: string, keywords: seq<string>)
    requires |keywords| > 0
    ensures exists kept :: SubseqOf(kept, SplitOn(text, '\n')) && FilterSkip(text, keywords).0 == Join(kept, "\n")
  {
    FilterKeepsSubseq(SplitOn(text, '\n'), keywords);
  }

  /**
   * The end test has no guard against an empty keyword, and "" occurs in
   * every line: with "" among the keywords a skipped section runs to the
   * end of the document.
   */
  lemma {:induction false} EmptyKeywordNeverEnds(lines: seq<string>, more: seq<string>, keywords: seq<string>)
    requires "" in keywords && Filter(lines, keywords).skip
    ensures Filter(lines + more, keywords).skip
    ensures Filter(lines + more, keywords).kept == Filter(lines, keywords).kept
    decreases |more|
  {
    if |more| > 0 {
      var init := more[..|more| - 1];
      EmptyKeywordNeverEnds(lines, init, keywords);
      assert (lines + more)[..|lines + more| - 1] == lines + init;
      var line := more[|more| - 1];
      var k :| 0 <= k < |keywords| && keywords[k] == "";
      assert StartsAt(Lower(line), 0, Lower(""));
      assert ContainsCI(line, keywords[k]);
    } else {
      assert lines + more == lines;
    }
  }

  // ---------------------------------------------------------------------
  // should_skip_output
  // ---------------------------------------------------------------------

  /** The up-to-date test; `outputMtime` is `None` when the output file does not exist. */
  function ShouldSkipOutput(force: bool, outputMtime: Option<int>, sourceMtime: int): bool {
    !force && outputMtime.Some? && outputMtime.value >= sourceMtime
  }

  /** Forcing, or a missing output, always rebuilds; an output at least as new as its source is kept. */
  lemma ShouldSkipSpec(force: bool, outputMtime: Option<int>, sourceMtime: int)
    ensures force ==> !ShouldSkipOutput(force, outputMtime, sourceMtime)
    ensures outputMtime.None? ==> !ShouldSkipOutput(force, outputMtime, sourceMtime)
    ensures ShouldSkipOutput(force, outputMtime, sourceMtime) ==>
      forall older :: older <= sourceMtime ==> ShouldSkipOutput(force, outputMtime, older)
    ensures !force && outputMtime.Some? && outputMtime.value < sourceMtime ==>
      !ShouldSkipOutput(force, outputMtime, sourceMtime)
  {
  }

  // ---------------------------------------------------------------------
  // parse_tasks_for_document and the keyword arguments of the calls
  // ---------------------------------------------------------------------

  /** A call with keyword arguments the callee does not declare raises `TypeError` before the body runs. */
  function CallCheck(given: set<string>, declared: set<string>): Option<Exception> {
    if given <= declared then None else Some(TypeError)
  }

  /** The parameters of `DialogueParser.split_into_tasks` and `DialogueParser.save_dialogue_json`. */
  const SplitParams: set<string> := {"text", "week_num"}
  const SaveParams: set<string> := {"turns", "output_path", "student_id"}

  /** `parse_tasks_for_document` as written: the call passes `expected_tasks=`. */
  function ParseTasksAsWritten(text: string, week: int, expectedTasks: int): Result<seq<TaskSplitter.Task>, Exception> {
    match CallCheck({"week_num", "expected_tasks"}, SplitParams)
    case Some(e) => Err(e)
    case None =>
      match TaskSplitter.SplitTasks(text)
      case Err(e) => Err(e)
      case Ok(tasks) => Ok(if |tasks| > 0 then tasks else [TaskSplitter.Task("T1", text)])
  }

  /** Whatever the document, the call raises `TypeError`. */
  lemma ParseTasksAlwaysRaises(text: string, week: int, expectedTasks: int)
    ensures ParseTasksAsWritten(text, week, expectedTasks) == Err(TypeError)
  {
    assert "expected_tasks" !in SplitParams;
  }

  /** `parse_tasks_for_document` with the call the splitter accepts: `split_into_tasks(text, week_num=...)`. */
  function ParseTasksIntended(text: string): Result<seq<TaskSplitter.Task>, Exception> {
    match TaskSplitter.SplitTasks(text)
    case Err(e) => Err(e)
    case Ok(tasks) => Ok(if |tasks| > 0 then tasks else [TaskSplitter.Task("T1", text)])
  }

  /**
   * The corrected call returns between one and three tasks, and raises only
   * where the splitter itself does.
   */
  lemma ParseTasksIntendedSpec(text: string)
    ensures ParseTasksIntended(text).Ok? ==> 1 <= |ParseTasksIntended(text).value| <= 3
    ensures ParseTasksIntended(text).Err? <==> TaskSplitter.SplitTasks(text).Err?
    ensures ParseTasksIntended(text).Err? ==> ParseTasksIntended(text).error == TypeError
    ensures CallCheck({"week_num"}, SplitParams).None?
  {
    TaskSplitter.SplitTasksBounds(text);
    TaskSplitter.SplitTasksError(text);
  }

  method ParseTasksForDocument(text: string, week: int) returns (r: Result<seq<TaskSplitter.Task>, Exception>)
    ensures r == ParseTasksIntended(text)
  {
    var tasks := TaskSplitter.SplitIntoTasks(text, week);
    if tasks.Err? {
      return Err(tasks.error);
    }
    if |tasks.value| > 0 {
      r := Ok(tasks.value);
    } else {
      r := Ok([TaskSplitter.Task("T1", text)]);
    }
  }

  // ---------------------------------------------------------------------
  // parse_turns_for_task
  // ---------------------------------------------------------------------

  /** The turns of one task: the unlabelled parser for a PDF, the English labelled parser otherwise. */
  function TurnsForTask(text: string, isPdf: bool): seq<Turn> {
    if isPdf then UnlabelledParser.UnlabelledTurns(text)
    else LabelledParser.LabelledTurns(text, LabelledParser.English)
  }

  lemma TurnsForTaskNumbered(text: string, isPdf: bool)
    ensures NumberedFromOne(TurnsForTask(text, isPdf))
  {
    if isPdf {
      UnlabelledParser.UnlabelledTurnsShape(text);
    } else {
      LabelledParser.LabelledTurnsShape(text, LabelledParser.English);
    }
  }

  method ParseTurnsForTask(text: string, isPdf: bool) returns (turns: seq<Turn>)
    ensures turns == TurnsForTask(text, isPdf)
    ensures NumberedFromOne(turns)
  {
    if isPdf {
      turns := UnlabelledParser.ParseWeek4Pdf(text);
    } else {
      turns := LabelledParser.ParseWeek1Week2(text);
    }
    TurnsForTaskNumbered(text, isPdf);
  }

  // ---------------------------------------------------------------------
  // format_dialogue_metadata
  // ---------------------------------------------------------------------

  datatype Metadata = Metadata(
    studentId: int, week: int, task: int, taskLabel: string, dialogueId: string, sourceFile: string)

  function DialogueId(student: string, week: string, taskIdx: int): string {
    "S" + student + "_W" + week + "_T" + IntToString(taskIdx)
  }

  function FormatDialogueMetadata(rec: Discovery.DocumentRecord, taskIdx: int, taskLabel: string): Metadata {
    Metadata(Discovery.IdValue(rec.student), Discovery.IdValue(rec.week), taskIdx, taskLabel,
      DialogueId(rec.student, rec.week, taskIdx), rec.path)
  }

  predicate DigitString(s: string) {
    |s| > 0 && Discovery.AllDigits(s)
  }

  /** Reads `S<digits>_W<digits>_T<digits>` back into its three parts. */
  function ParseDialogueId(id: string): Option<(string, string, nat)> {
    if |id| == 0 || id[0] != 'S' then None else ParseIdParts(id[1..])
  }

  /** `<digits>_W<digits>_T<digits>`. */
  function ParseIdParts(a: string): Option<(string, string, nat)> {
    var d := RunLength(a, 0, IsDigit);
    if d == 0 || !StartsAt(a, d, "_W") then None
    else
      match ParseWeekTask(a[d + 2..])
      case None => None
      case Some(wt) => Some((a[..d], wt.0, wt.1))
  }

  /** `<digits>_T<digits>`. */
  function ParseWeekTask(b: string): Option<(string, nat)> {
    var d := RunLength(b, 0, IsDigit);
    if d == 0 || !StartsAt(b, d, "_T") then None
    else
      var c := b[d + 2..];
      if RunLength(c, 0, IsDigit) == 0 || RunLength(c, 0, IsDigit) != |c| then None
      else Some((b[..d], ParseNat(c)))
  }

  /** `RunLength` stops exactly where the run of `p` stops. */
  lemma RunLengthExact(s: string, i: nat, k: nat, p: char -> bool)
    requires i + k <= |s|
    requires forall j :: i <= j < i + k ==> p(s[j])
    requires i + k == |s| || !p(s[i + k])
    ensures RunLength(s, i, p) == k
  {
  }

  /** A digit run followed by a two-character tag that does not start with a digit is read whole. */
  lemma DigitsThenTag(d: string, tag: string, rest: string)
    requires DigitString(d) && |tag| == 2 && !IsDigit(tag[0])
    ensures var s := d + tag + rest;
      RunLength(s, 0, IsDigit) == |d| && StartsAt(s, |d|, tag) && s[..|d|] == d && s[|d| + 2..] == rest
  {
    var s := d + tag + rest;
    assert s[|d|] == tag[0];
    assert s[|d|..|d| + 2] == tag;
    RunLengthExact(s, 0, |d|, IsDigit);
  }

  lemma ParseWeekTaskComposed(week: string, n: string)
    requires DigitString(week) && DigitString(n)
    ensures ParseWeekTask(week + "_T" + n) == Some((week, ParseNat(n)))
  {
    DigitsThenTag(week, "_T", n);
    RunLengthExact(n, 0, |n|, IsDigit);
  }

  lemma ParseIdPartsComposed(student: string, week: string, n: string)
    requires DigitString(student) && DigitString(week) && DigitString(n)
    ensures ParseIdParts(student + "_W" + (week + "_T" + n)) == Some((student, week, ParseNat(n)))
  {
    DigitsThenTag(student, "_W", week + "_T" + n);
    ParseWeekTaskComposed(week, n);
  }

  lemma ParseComposed(student: string, week: string, n: string)
    requires DigitString(student) && DigitString(week) && DigitString(n)
    ensures ParseDialogueId("S" + student + "_W" + week + "_T" + n) == Some((student, week, ParseNat(n)))
  {
    var a := student + "_W" + (week + "_T" + n);
    assert "S" + student + "_W" + week + "_T" + n == "S" + a;
    assert ("S" + a)[1..] == a;
    ParseIdPartsComposed(student, week, n);
  }

  /** The dialogue id of a record with numeric ids and a non-negative task index reads back to them. */
  lemma DialogueIdRoundTrip(student: string, week: string, taskIdx: nat)
    requires DigitString(student) && DigitString(week)
    ensures ParseDialogueId(DialogueId(student, week, taskIdx)) == Some((student, week, taskIdx))
  {
    ParseComposed(student, week, NatToString(taskIdx));
  }

  /** The metadata's numeric fields are the record's ids read as numbers, and its id names the same dialogue. */
  lemma MetadataSpec(rec: Discovery.DocumentRecord, taskIdx: nat, taskLabel: string)
    requires DigitString(rec.student) && DigitString(rec.week)
    ensures var m := FormatDialogueMetadata(rec, taskIdx, taskLabel);
      m.studentId == ParseNat(rec.student) && m.week == ParseNat(rec.week) && m.task == taskIdx &&
      ParseDialogueId(m.dialogueId) == Some((rec.student, rec.week, taskIdx))
  {
    DialogueIdRoundTrip(rec.student, rec.week, taskIdx);
  }

  // ---------------------------------------------------------------------
  // save_dialogue_json, as called by the pipeline
  // ---------------------------------------------------------------------

  /** What one saved dialogue file holds. */
  datatype DialogueFile = DialogueFile(path: string, turns: seq<Turn>, meta: Option<Metadata>)

  /** The pipeline's call as written passes `metadata=`. */
  function SaveAsWritten(turns: seq<Turn>, path: string, meta: Metadata): Result<DialogueFile, Exception> {
    match CallCheck({"metadata"}, SaveParams)
    case Some(e) => Err(e)
    case None => Ok(DialogueFile(path, turns, None))
  }

  lemma SaveAlwaysRaises(turns: seq<Turn>, path: string, meta: Metadata)
    ensures SaveAsWritten(turns, path, meta) == Err(TypeError)
  {
    assert "metadata" !in SaveParams;
  }

  /** The save the pipeline intends: the turns together with their metadata. */
  function SaveIntended(turns: seq<Turn>, path: string, meta: Metadata): (r: DialogueFile)
    ensures r.turns == turns && r.meta == Some(meta)
  {
    DialogueFile(path, turns, Some(meta))
  }
}
