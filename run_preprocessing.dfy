/**
 * The module-level steps 2 to 4 of `run_preprocessing.py`: parse each
 * week's text with its format's extractor, split it into task spans and
 * save one turn list per task, or cut the whole turn list into three
 * chunks when there are not several spans. Turns are dictionaries that the
 * chunking renumbers in place, so the lists kept per week change too.
 */
module RunPreprocessing {
  import opened Wrappers
  import opened Text
  import opened Dialogue
  import LabelledParser
  import UnlabelledParser
  import TaskSplitter

  /** One entry of the script's document table. */
  datatype WeekDoc = WeekDoc(key: string, weekNum: nat, file: string, format: string, studentId: int)

  /** The documents the script processes, in table order. */
  const Documents: seq<WeekDoc> := [
    WeekDoc("week1", 1, "#18. Week1.docx", "week1_week2", 18),
    WeekDoc("week2", 2, "#12. Week2.docx", "week1_week2", 12),
    WeekDoc("week3", 3, "#16. Week3.docx", "week3", 16),
    WeekDoc("week4", 4, "#14. Week4.pdf", "week4", 14)
  ]

  /** A saved dialogue file: its name, the student id stored with it, and the turns as they were when saved. */
  datatype Saved = Saved(name: string, studentId: int, turns: seq<Turn>)

  predicate KnownFormat(format: string) {
    format in {"week1_week2", "week3", "week4"}
  }

  /** The format dispatch; an unknown format gives no turns. */
  function FormatTurns(text: string, format: string): seq<Turn> {
    if format == "week1_week2" then LabelledParser.LabelledTurns(text, LabelledParser.English)
    else if format == "week3" then LabelledParser.LabelledTurns(text, LabelledParser.Portuguese)
    else if format == "week4" then UnlabelledParser.UnlabelledTurns(text)
    else []
  }

  /** Whatever a known format parses is numbered 1..n. */
  lemma FormatTurnsNumbered(text: string, format: string)
    ensures NumberedFromOne(FormatTurns(text, format))
    ensures !KnownFormat(format) ==> FormatTurns(text, format) == []
  {
    if format == "week1_week2" {
      LabelledParser.LabelledTurnsShape(text, LabelledParser.English);
    } else if format == "week3" {
      LabelledParser.LabelledTurnsShape(text, LabelledParser.Portuguese);
    } else if format == "week4" {
      UnlabelledParser.UnlabelledTurnsShape(text);
    }
  }

  method ParseFormat(text: string, format: string) returns (turns: seq<Turn>)
    ensures turns == FormatTurns(text, format)
  {
    if format == "week1_week2" {
      turns := LabelledParser.ParseWeek1Week2(text);
    } else if format == "week3" {
      turns := LabelledParser.ParseWeek3(text);
    } else if format == "week4" {
      turns := UnlabelledParser.ParseWeek4Pdf(text);
    } else {
      turns := [];
    }
  }

  /** `for i, turn in enumerate(turns, 1): turn['turn'] = i`, on values. */
  function Renumbered(ts: seq<Turn>): seq<Turn> {
    seq(|ts|, k requires 0 <= k < |ts| => ts[k].(turn := k + 1))
  }

  /** Renumbering numbers from one and changes no speaker or text. */
  lemma RenumberedSpec(ts: seq<Turn>)
    ensures NumberedFromOne(Renumbered(ts))
    ensures Unnumbered(Renumbered(ts)) == Unnumbered(ts)
    ensures NumberedFromOne(ts) ==> Renumbered(ts) == ts
  {
  }

  /** The (speaker, text) pairs of a turn list. */
  function Unnumbered(ts: seq<Turn>): (r: seq<(Speaker, string)>)
    ensures |r| == |ts| && forall k :: 0 <= k < |ts| ==> r[k] == (ts[k].speaker, ts[k].text)
    decreases |ts|
  {
    if |ts| == 0 then [] else Unnumbered(ts[..|ts| - 1]) + [(ts[|ts| - 1].speaker, ts[|ts| - 1].text)]
  }

  function OutputName(weekNum: nat, taskIdx: int): string {
    "W" + IntToString(weekNum) + "_T" + IntToString(taskIdx) + ".json"
  }

  // ---------------------------------------------------------------------
  // Turn dictionaries held by reference.
  // ---------------------------------------------------------------------

  /** Renumbers the dictionaries `ts[lo..hi]` as 1, 2, ... in place; the others keep their contents. */
  method RenumberRange(ts: seq<TurnObj>, lo: nat, hi: nat)
    requires lo <= hi <= |ts| && Distinct(ts)
    modifies Objs(ts[lo..hi])
    ensures forall k :: lo <= k < hi ==> ts[k].Value() == old(ts[k].Value()).(turn := k - lo + 1)
    ensures forall k :: 0 <= k < |ts| && !(lo <= k < hi) ==> ts[k].Value() == old(ts[k].Value())
  {
    for i := lo to hi
      invariant forall k :: 0 <= k < |ts| && !(lo <= k < i) ==> ts[k].Value() == old(ts[k].Value())
      invariant forall k :: lo <= k < i ==> ts[k].Value() == old(ts[k].Value()).(turn := k - lo + 1)
    {
      ts[i].turn := i - lo + 1;
    }
  }

  // ---------------------------------------------------------------------
  // Step 4 for one week.
  // ---------------------------------------------------------------------

  /** With several spans: each span parsed afresh, renumbered and saved if it has turns. */
  function SpanFiles(d: WeekDoc, tasks: seq<TaskSplitter.Task>): seq<Saved>
    decreases |tasks|
  {
    if |tasks| == 0 then []
    else SpanFiles(d, tasks[..|tasks| - 1]) + SpanFile(d, |tasks|, FormatTurns(tasks[|tasks| - 1].body, d.format))
  }

  /** Span `idx`'s file, when its turns are not empty. */
  function SpanFile(d: WeekDoc, idx: nat, turns: seq<Turn>): seq<Saved> {
    if |turns| > 0 then [Saved(OutputName(d.weekNum, idx), d.studentId, Renumbered(turns))] else []
  }

  /** The slice `turns[start:end]` of chunk `idx` (1..3): `total // 3` each, the last to the end. */
  function ChunkBounds(total: nat, idx: nat): (b: (nat, nat))
    requires 1 <= idx <= 3
  {
    var size := total / 3;
    ((idx - 1) * size, if idx < 3 then idx * size else total)
  }

  /** The bounds written out: chunk 1 is `[0, s)`, chunk 2 `[s, 2s)`, chunk 3 `[2s, total)`, with `s = total / 3`. */
  lemma ChunkBoundsAre(total: nat, idx: nat)
    requires 1 <= idx <= 3
    ensures ChunkBounds(total, idx) == if idx == 1 then (0, total / 3)
                                      else if idx == 2 then (total / 3, 2 * (total / 3))
                                      else (2 * (total / 3), total)
  {
  }

  function Chunk(vals: seq<Turn>, idx: nat): seq<Turn>
    requires 1 <= idx <= 3
  {
    ChunkBoundsAre(|vals|, idx);
    vals[ChunkBounds(|vals|, idx).0..ChunkBounds(|vals|, idx).1]
  }

  /** The file of chunk `n`. */
  function ChunkFile(d: WeekDoc, vals: seq<Turn>, n: nat): Saved
    requires 1 <= n <= 3
  {
    Saved(OutputName(d.weekNum, n), d.studentId, Renumbered(Chunk(vals, n)))
  }

  /** The files of the first `n` chunks. */
  function ChunkFiles(d: WeekDoc, vals: seq<Turn>, n: nat): seq<Saved>
    requires n <= 3
  {
    if n == 0 then [] else ChunkFiles(d, vals, n - 1) + [ChunkFile(d, vals, n)]
  }

  function ThirdFiles(d: WeekDoc, vals: seq<Turn>): seq<Saved> {
    [ChunkFile(d, vals, 1), ChunkFile(d, vals, 2), ChunkFile(d, vals, 3)]
  }

  lemma ChunkFilesAll(d: WeekDoc, vals: seq<Turn>)
    ensures ChunkFiles(d, vals, 3) == ThirdFiles(d, vals)
  {
    var f1, f2, f3 := ChunkFile(d, vals, 1), ChunkFile(d, vals, 2), ChunkFile(d, vals, 3);
    assert ChunkFiles(d, vals, 1) == [f1];
    assert ChunkFiles(d, vals, 2) == [f1] + [f2] == [f1, f2];
    assert ChunkFiles(d, vals, 3) == [f1, f2] + [f3] == [f1, f2, f3];
  }

  /** The turn number index `k` gets from the chunking: its place within its chunk. */
  function ChunkPos(total: nat, k: nat): nat {
    var size := total / 3;
    if k < size then k + 1 else if k < 2 * size then k - size + 1 else k - 2 * size + 1
  }

  /** The week's turn list after the chunks have been renumbered in place. */
  function ChunkRenumbered(vals: seq<Turn>): seq<Turn> {
    seq(|vals|, k requires 0 <= k < |vals| => vals[k].(turn := ChunkPos(|vals|, k)))
  }

  /** Where chunk `n` ends (0 for no chunk). */
  function ChunkEnd(total: nat, n: nat): nat
    requires n <= 3
  {
    if n == 0 then 0 else ChunkBounds(total, n).1
  }

  /** Chunk `n` runs from where chunk `n - 1` ends to where it ends, numbering its indices from 1. */
  lemma ChunkPositions(total: nat, n: nat)
    requires 1 <= n <= 3 && total >= 3
    ensures ChunkBounds(total, n).0 == ChunkEnd(total, n - 1)
    ensures ChunkBounds(total, n).1 == ChunkEnd(total, n)
    ensures forall k :: ChunkBounds(total, n).0 <= k < ChunkBounds(total, n).1 ==> ChunkPos(total, k) == k - ChunkBounds(total, n).0 + 1
  {
    ChunkBoundsAre(total, n);
    if n > 1 {
      ChunkBoundsAre(total, n - 1);
    }
  }

  /** The dictionaries before index `e` carry their chunk numbers; the rest are as they were. */
  predicate RenumberedUpTo(turns: seq<TurnObj>, vals: seq<Turn>, e: nat)
    reads Objs(turns)
  {
    |turns| == |vals| &&
    forall k :: 0 <= k < |turns| ==> turns[k].Value() == if k < e then vals[k].(turn := ChunkPos(|vals|, k)) else vals[k]
  }

  /** Renumbers chunk `n` of the week's dictionaries in place and returns its file. */
  method SaveChunk(d: WeekDoc, turns: seq<TurnObj>, ghost vals: seq<Turn>, n: nat) returns (file: Saved)
    requires 1 <= n <= 3 && |vals| >= 3 && Distinct(turns)
    requires RenumberedUpTo(turns, vals, ChunkEnd(|vals|, n - 1))
    modifies Objs(turns)
    ensures RenumberedUpTo(turns, vals, ChunkEnd(|vals|, n))
    ensures file == ChunkFile(d, vals, n)
  {
    var b := ChunkBounds(|turns|, n);
    ChunkPositions(|turns|, n);
    ObjsSlice(turns, b.0, b.1);
    RenumberRange(turns, b.0, b.1);
    var chunk := Values(turns[b.0..b.1]);
    assert forall j :: 0 <= j < |chunk| ==> chunk[j] == Renumbered(Chunk(vals, n))[j];
    file := Saved(OutputName(d.weekNum, n), d.studentId, chunk);
  }

  /** Three or more turns and no spans: the week's own dictionaries are renumbered chunk by chunk and saved. */
  method SaveChunks(d: WeekDoc, turns: seq<TurnObj>) returns (saved: seq<Saved>)
    requires |turns| >= 3 && Distinct(turns)
    modifies Objs(turns)
    ensures saved == ThirdFiles(d, old(Values(turns)))
    ensures Values(turns) == ChunkRenumbered(old(Values(turns)))
  {
    ghost var vals := Values(turns);
    saved := [];
    for idx := 1 to 4
      invariant saved == ChunkFiles(d, vals, idx - 1)
      invariant RenumberedUpTo(turns, vals, ChunkEnd(|vals|, idx - 1))
    {
      var file := SaveChunk(d, turns, vals, idx);
      saved := saved + [file];
    }
    ChunkFilesAll(d, vals);
    assert forall k :: 0 <= k < |turns| ==> Values(turns)[k] == ChunkRenumbered(vals)[k];
  }

  /** One span's turns: new dictionaries, renumbered, then saved when there are any. */
  method SaveSpan(d: WeekDoc, idx: nat, taskTurns: seq<Turn>) returns (file: seq<Saved>)
    ensures file == SpanFile(d, idx, taskTurns)
  {
    file := [];
    if |taskTurns| > 0 {
      var objs := ToObjects(taskTurns);
      ObjsSlice(objs, 0, |objs|);
      assert objs[0..|objs|] == objs;
      assert forall k :: 0 <= k < |objs| ==> objs[k].Value() == taskTurns[k];
      RenumberRange(objs, 0, |objs|);
      assert forall k :: 0 <= k < |objs| ==> Values(objs)[k] == Renumbered(taskTurns)[k];
      assert Values(objs) == Renumbered(taskTurns);
      file := [Saved(OutputName(d.weekNum, idx), d.studentId, Values(objs))];
    }
  }

  /** Several spans: each parsed and saved in turn. */
  method SaveSpans(d: WeekDoc, spans: seq<TaskSplitter.Task>) returns (saved: seq<Saved>)
    ensures saved == SpanFiles(d, spans)
  {
    saved := [];
    for k := 0 to |spans|
      invariant saved == SpanFiles(d, spans[..k])
    {
      assert spans[..k + 1][..k] == spans[..k];
      var taskTurns := ParseFormat(spans[k].body, d.format);
      var file := SaveSpan(d, k + 1, taskTurns);
      saved := saved + file;
    }
    assert spans[..|spans|] == spans;
  }

  /** The chunking branch is taken: at most one span and three or more turns. */
  predicate ChunkBranch(text: string, vals: seq<Turn>) {
    |vals| >= 3 && TaskSplitter.SplitTasks(text).Ok? && |TaskSplitter.SplitTasks(text).value| <= 1
  }

  /** The files step 4 saves for one week with turn list `vals`, or the exception it raises. */
  function WeekFiles(d: WeekDoc, text: string, vals: seq<Turn>): Result<seq<Saved>, Exception> {
    if |vals| == 0 then Ok([])
    else
      match TaskSplitter.SplitTasks(text)
      case Err(e) => Err(e)
      case Ok(tasks) =>
        if |tasks| > 1 then Ok(SpanFiles(d, tasks))
        else if |vals| >= 3 then Ok(ThirdFiles(d, vals))
        else Ok([Saved(OutputName(d.weekNum, 1), d.studentId, vals)])
  }

  method SaveWeek(d: WeekDoc, text: string, turns: seq<TurnObj>) returns (r: Result<seq<Saved>, Exception>)
    requires Distinct(turns)
    modifies Objs(turns)
    ensures r == WeekFiles(d, text, old(Values(turns)))
    ensures Values(turns) == if ChunkBranch(text, old(Values(turns))) then ChunkRenumbered(old(Values(turns))) else old(Values(turns))
  {
    if |turns| == 0 {
      return Ok([]);
    }
    var tasks := TaskSplitter.SplitIntoTasks(text, d.weekNum);
    if tasks.Err? {
      return Err(tasks.error);
    }
    var saved: seq<Saved>;
    if |tasks.value| > 1 {
      saved := SaveSpans(d, tasks.value);
    } else if |turns| >= 3 {
      saved := SaveChunks(d, turns);
    } else {
      saved := [Saved(OutputName(d.weekNum, 1), d.studentId, Values(turns))];
    }
    r := Ok(saved);
  }

  /** Which file names a week's files may have. */
  predicate TaskFileName(d: WeekDoc, name: string) {
    exists j :: 1 <= j <= 3 && name == OutputName(d.weekNum, j)
  }

  /** A saved file of week `d`: non-empty, numbered 1..n, tagged with the week's student and named `W<week>_T<1..3>.json`. */
  predicate GoodFile(d: WeekDoc, f: Saved) {
    |f.turns| > 0 && NumberedFromOne(f.turns) && f.studentId == d.studentId && TaskFileName(d, f.name)
  }

  lemma {:induction false} SpanFilesGood(d: WeekDoc, tasks: seq<TaskSplitter.Task>)
    requires |tasks| <= 3
    ensures forall f :: f in SpanFiles(d, tasks) ==> GoodFile(d, f)
    ensures forall f :: f in SpanFiles(d, tasks) ==> exists k :: 0 <= k < |tasks| && f.turns == FormatTurns(tasks[k].body, d.format)
    decreases |tasks|
  {
    if |tasks| > 0 {
      var init := tasks[..|tasks| - 1];
      SpanFilesGood(d, init);
      var turns := FormatTurns(tasks[|tasks| - 1].body, d.format);
      FormatTurnsNumbered(tasks[|tasks| - 1].body, d.format);
      RenumberedSpec(turns);
      forall f | f in SpanFiles(d, init)
        ensures exists k :: 0 <= k < |tasks| && f.turns == FormatTurns(tasks[k].body, d.format)
      {
        var k :| 0 <= k < |init| && f.turns == FormatTurns(init[k].body, d.format);
        assert tasks[k] == init[k];
      }
      if |turns| > 0 {
        assert TaskFileName(d, OutputName(d.weekNum, |tasks|));
      }
    }
  }

  /**
   * The three chunks are contiguous, non-empty and together the whole list;
   * the first two hold `total // 3` turns each. After step 4 the week's list
   * is the three saved files one after another.
   */
  lemma ChunksPartition(d: WeekDoc, vals: seq<Turn>)
    requires |vals| >= 3
    ensures Chunk(vals, 1) + Chunk(vals, 2) + Chunk(vals, 3) == vals
    ensures |Chunk(vals, 1)| == |Chunk(vals, 2)| == |vals| / 3 >= 1 && |Chunk(vals, 3)| >= |vals| / 3
    ensures ThirdFiles(d, vals)[0].turns + ThirdFiles(d, vals)[1].turns + ThirdFiles(d, vals)[2].turns == ChunkRenumbered(vals)
  {
    ChunkBoundsAre(|vals|, 1);
    ChunkBoundsAre(|vals|, 2);
    ChunkBoundsAre(|vals|, 3);
    var size := |vals| / 3;
    assert vals[0..size] + vals[size..2 * size] + vals[2 * size..|vals|] == vals;
    var cat := Renumbered(Chunk(vals, 1)) + Renumbered(Chunk(vals, 2)) + Renumbered(Chunk(vals, 3));
    assert forall k :: 0 <= k < |vals| ==> cat[k] == ChunkRenumbered(vals)[k];
  }

  /** Chunk `n`'s file is good. */
  lemma ChunkFileGood(d: WeekDoc, vals: seq<Turn>, n: nat)
    requires |vals| >= 3 && 1 <= n <= 3
    ensures GoodFile(d, ChunkFile(d, vals, n))
  {
    ChunkBoundsAre(|vals|, n);
    assert TaskFileName(d, OutputName(d.weekNum, n));
  }

  /** The chunk files, one after another, are the renumbered week. */
  lemma ThirdFilesFlatten(d: WeekDoc, vals: seq<Turn>)
    requires |vals| >= 3
    ensures Flatten(ThirdFiles(d, vals)) == ChunkRenumbered(vals)
  {
    var fs := ThirdFiles(d, vals);
    ChunksPartition(d, vals);
    assert fs[..2][..1] == fs[..1];
    assert Flatten(fs[..1]) == fs[0].turns by {
      assert fs[..1][..0] == [];
    }
    assert Flatten(fs[..2]) == fs[0].turns + fs[1].turns;
    assert fs[..3] == fs;
    assert Flatten(fs) == fs[0].turns + fs[1].turns + fs[2].turns;
  }

  /** The chunk files are good, and hold the week's turns in order. */
  lemma ThirdFilesGood(d: WeekDoc, vals: seq<Turn>)
    requires |vals| >= 3
    ensures forall f :: f in ThirdFiles(d, vals) ==> GoodFile(d, f)
    ensures Unnumbered(Flatten(ThirdFiles(d, vals))) == Unnumbered(vals)
  {
    ChunkFileGood(d, vals, 1);
    ChunkFileGood(d, vals, 2);
    ChunkFileGood(d, vals, 3);
    ThirdFilesFlatten(d, vals);
    ChunkRenumberedKeepsText(vals);
  }

  lemma ChunkRenumberedKeepsText(vals: seq<Turn>)
    ensures Unnumbered(ChunkRenumbered(vals)) == Unnumbered(vals)
  {
    assert forall k :: 0 <= k < |vals| ==> Unnumbered(ChunkRenumbered(vals))[k] == Unnumbered(vals)[k];
  }

  /** The single-file fallback saves the parsed list as it is. */
  lemma SingleFileGood(d: WeekDoc, vals: seq<Turn>)
    requires |vals| > 0 && NumberedFromOne(vals)
    ensures GoodFile(d, Saved(OutputName(d.weekNum, 1), d.studentId, vals))
    ensures Flatten([Saved(OutputName(d.weekNum, 1), d.studentId, vals)]) == vals
  {
    assert TaskFileName(d, OutputName(d.weekNum, 1));
  }

  /**
   * Step 4 for one week: it raises only when the week has turns and the
   * splitter raises, and then with `TypeError`; otherwise every file it saves
   * is non-empty, numbered 1..n, tagged with the student and named after a
   * task 1..3. Renumbering is a no-op on freshly parsed spans, so a span's
   * file holds exactly that span's parse; without spans the saved files
   * hold all the week's turns, in order.
   */
  lemma WeekFilesSpec(d: WeekDoc, text: string, vals: seq<Turn>)
    requires NumberedFromOne(vals)
    ensures WeekFiles(d, text, vals).Err? <==> |vals| > 0 && TaskSplitter.SplitTasks(text).Err?
    ensures WeekFiles(d, text, vals).Err? ==> WeekFiles(d, text, vals).error == TypeError
    ensures WeekFiles(d, text, vals).Ok? ==> forall f :: f in WeekFiles(d, text, vals).value ==> GoodFile(d, f)
    ensures WeekFiles(d, text, vals).Ok? && |vals| > 0 && |TaskSplitter.SplitTasks(text).value| > 1 ==>
      forall f :: f in WeekFiles(d, text, vals).value ==>
        exists k :: 0 <= k < |TaskSplitter.SplitTasks(text).value| && f.turns == FormatTurns(TaskSplitter.SplitTasks(text).value[k].body, d.format)
    ensures WeekFiles(d, text, vals).Ok? && |vals| > 0 && |TaskSplitter.SplitTasks(text).value| <= 1 ==>
      Unnumbered(Flatten(WeekFiles(d, text, vals).value)) == Unnumbered(vals)
  {
    TaskSplitter.SplitTasksError(text);
    if |vals| > 0 && TaskSplitter.SplitTasks(text).Ok? {
      var tasks := TaskSplitter.SplitTasks(text).value;
      if |tasks| > 1 {
        TaskSplitter.SplitTasksBounds(text);
        SpanFilesGood(d, tasks);
      } else if |vals| >= 3 {
        ThirdFilesGood(d, vals);
      } else {
        SingleFileGood(d, vals);
      }
    }
  }

  /** All the turns of a list of files, one file after another. */
  function Flatten(fs: seq<Saved>): seq<Turn>
    decreases |fs|
  {
    if |fs| == 0 then [] else Flatten(fs[..|fs| - 1]) + fs[|fs| - 1].turns
  }

  // ---------------------------------------------------------------------
  // The whole script: step 2 over the document table, then step 4.
  // ---------------------------------------------------------------------

  /** A week that step 2 parsed: its table entry, its extracted text and its turns. */
  datatype Parsed = Parsed(doc: WeekDoc, text: string, turns: seq<Turn>)

  /** Step 2's list after one more document: the parsed week appended when it has a text and a known format. */
  function ParsedStep(texts: map<string, string>, prev: seq<Parsed>, d: WeekDoc): seq<Parsed> {
    if d.key in texts && KnownFormat(d.format) then prev + [Parsed(d, texts[d.key], FormatTurns(texts[d.key], d.format))]
    else prev
  }

  /** Step 2: the weeks with an extracted text and a known format, parsed. */
  function ParsedWeeks(texts: map<string, string>, docs: seq<WeekDoc>): seq<Parsed>
    decreases |docs|
  {
    if |docs| == 0 then []
    else
      ParsedStep(texts, ParsedWeeks(texts, docs[..|docs| - 1]), docs[|docs| - 1])
  }

  /** Step 4 over the parsed weeks: the files saved, and the exception that ended the script, if one did. */
  function Step4Files(weeks: seq<Parsed>): (seq<Saved>, Option<Exception>)
    decreases |weeks|
  {
    if |weeks| == 0 then ([], None) else Step4Week(Step4Files(weeks[..|weeks| - 1]), weeks[|weeks| - 1])
  }

  /** One week of step 4 after the earlier ones; nothing once the script has raised. */
  function Step4Week(prev: (seq<Saved>, Option<Exception>), w: Parsed): (seq<Saved>, Option<Exception>) {
    if prev.1.Some? then prev
    else
      match WeekFiles(w.doc, w.text, w.turns)
      case Err(e) => (prev.0, Some(e))
      case Ok(fs) => (prev.0 + fs, None)
  }

  function ScriptFiles(texts: map<string, string>): (seq<Saved>, Option<Exception>) {
    Step4Files(ParsedWeeks(texts, Documents))
  }

  /** Once step 4 has raised on the first `i` weeks, the later weeks change nothing. */
  lemma {:induction false} Step4Stops(weeks: seq<Parsed>, i: nat)
    requires i <= |weeks| && Step4Files(weeks[..i]).1.Some?
    ensures Step4Files(weeks) == Step4Files(weeks[..i])
    decreases |weeks|
  {
    if i < |weeks| {
      var init := weeks[..|weeks| - 1];
      assert init[..i] == weeks[..i];
      Step4Stops(init, i);
    } else {
      assert weeks[..i] == weeks;
    }
  }

  /** Every dictionary of every week. */
  function AllObjs(dss: seq<seq<TurnObj>>): set<TurnObj> {
    set j, t | 0 <= j < |dss| && t in dss[j] :: t
  }

  lemma AllObjsSnoc(dss: seq<seq<TurnObj>>, objs: seq<TurnObj>)
    ensures AllObjs(dss + [objs]) == AllObjs(dss) + Objs(objs)
  {
    var all := dss + [objs];
    forall t | t in AllObjs(all) ensures t in AllObjs(dss) + Objs(objs) {
      var j :| 0 <= j < |all| && t in all[j];
      if j < |dss| {
        assert all[j] == dss[j];
      }
    }
    forall t | t in AllObjs(dss) + Objs(objs) ensures t in AllObjs(all) {
      if t in Objs(objs) {
        assert all[|dss|] == objs;
      } else {
        var j :| 0 <= j < |dss| && t in dss[j];
        assert all[j] == dss[j];
      }
    }
  }

  lemma AllObjsHas(dss: seq<seq<TurnObj>>, i: nat)
    requires i < |dss|
    ensures Objs(dss[i]) <= AllObjs(dss)
  {
  }

  /**
   * The lists step 2 hands to step 4: entry `j` of each describes the same
   * week, its dictionaries hold that week's parsed turns, and no dictionary
   * belongs to two weeks.
   */
  predicate WeeksHeld(weeks: seq<(WeekDoc, string)>, dss: seq<seq<TurnObj>>, parsed: seq<Parsed>)
    reads AllObjs(dss)
  {
    |weeks| == |dss| == |parsed|
    && (forall j :: 0 <= j < |parsed| ==>
          weeks[j] == (parsed[j].doc, parsed[j].text) && Distinct(dss[j]) && Values(dss[j]) == parsed[j].turns)
    && (forall j, j' :: 0 <= j < j' < |parsed| ==> Objs(dss[j]) !! Objs(dss[j']))
  }

  /** A newly parsed week whose dictionaries are new joins the lists. */
  lemma HeldSnoc(weeks: seq<(WeekDoc, string)>, dss: seq<seq<TurnObj>>, parsed: seq<Parsed>, w: Parsed, objs: seq<TurnObj>)
    requires WeeksHeld(weeks, dss, parsed)
    requires Distinct(objs) && Values(objs) == w.turns && Objs(objs) !! AllObjs(dss)
    ensures WeeksHeld(weeks + [(w.doc, w.text)], dss + [objs], parsed + [w])
  {
    var dss' := dss + [objs];
    forall j, j' | 0 <= j < j' < |dss'| ensures Objs(dss'[j]) !! Objs(dss'[j']) {
      if j' == |dss| {
        AllObjsHas(dss, j);
      }
    }
  }

  /** The first week of the lists, and the rest, whose dictionaries are not the first week's. */
  lemma HeldTail(weeks: seq<(WeekDoc, string)>, dss: seq<seq<TurnObj>>, parsed: seq<Parsed>)
    requires WeeksHeld(weeks, dss, parsed) && |parsed| > 0
    ensures weeks[0] == (parsed[0].doc, parsed[0].text) && Distinct(dss[0]) && Values(dss[0]) == parsed[0].turns
    ensures Objs(dss[0]) !! AllObjs(dss[1..])
    ensures WeeksHeld(weeks[1..], dss[1..], parsed[1..])
  {
    forall t | t in AllObjs(dss[1..]) ensures t !in Objs(dss[0]) {
      var j :| 0 <= j < |dss[1..]| && t in dss[1..][j];
      assert Objs(dss[0]) !! Objs(dss[j + 1]);
    }
  }

  lemma ParsedWeeksSnoc(texts: map<string, string>, docs: seq<WeekDoc>, i: nat)
    requires i < |docs|
    ensures ParsedWeeks(texts, docs[..i + 1]) == ParsedStep(texts, ParsedWeeks(texts, docs[..i]), docs[i])
  {
    assert docs[..i + 1][..i] == docs[..i];
  }

  /** One pass of the step-2 loop: a week with a text and a known format is parsed into new dictionaries. */
  method ParseOne(texts: map<string, string>, d: WeekDoc, weeks: seq<(WeekDoc, string)>, allDialogues: seq<seq<TurnObj>>, ghost parsed: seq<Parsed>)
    returns (weeks': seq<(WeekDoc, string)>, allDialogues': seq<seq<TurnObj>>, ghost parsed': seq<Parsed>)
    requires WeeksHeld(weeks, allDialogues, parsed)
    ensures parsed' == ParsedStep(texts, parsed, d)
    ensures WeeksHeld(weeks', allDialogues', parsed')
    ensures fresh(AllObjs(allDialogues') - AllObjs(allDialogues))
  {
    weeks', allDialogues', parsed' := weeks, allDialogues, parsed;
    if d.key in texts && KnownFormat(d.format) {
      var turns := ParseFormat(texts[d.key], d.format);
      var objs := ToObjects(turns);
      var w := Parsed(d, texts[d.key], turns);
      AllObjsSnoc(allDialogues, objs);
      HeldSnoc(weeks, allDialogues, parsed, w, objs);
      parsed' := parsed + [w];
      weeks' := weeks + [(d, texts[d.key])];
      allDialogues' := allDialogues + [objs];
    }
  }

  /** Step 2: each extracted week parsed into new turn dictionaries, no two weeks sharing one. */
  method ParseWeeks(texts: map<string, string>) returns (weeks: seq<(WeekDoc, string)>, allDialogues: seq<seq<TurnObj>>, ghost parsed: seq<Parsed>)
    ensures parsed == ParsedWeeks(texts, Documents)
    ensures WeeksHeld(weeks, allDialogues, parsed)
    ensures fresh(AllObjs(allDialogues))
  {
    parsed := [];
    weeks := [];
    allDialogues := [];
    for i := 0 to |Documents|
      invariant parsed == ParsedWeeks(texts, Documents[..i])
      invariant WeeksHeld(weeks, allDialogues, parsed)
      invariant fresh(AllObjs(allDialogues))
    {
      ParsedWeeksSnoc(texts, Documents, i);
      weeks, allDialogues, parsed := ParseOne(texts, Documents[i], weeks, allDialogues, parsed);
    }
    assert Documents[..|Documents|] == Documents;
  }

  /** Step 4: each week split into tasks and saved, in order; a raise ends the script. */
  method SaveWeeks(weeks: seq<(WeekDoc, string)>, allDialogues: seq<seq<TurnObj>>, ghost parsed: seq<Parsed>)
    returns (saved: seq<Saved>, raised: Option<Exception>)
    requires WeeksHeld(weeks, allDialogues, parsed)
    modifies AllObjs(allDialogues)
    ensures (saved, raised) == Step4Files(parsed)
  {
    saved, raised := [], None;
    for i := 0 to |allDialogues|
      invariant (saved, raised) == Step4Files(parsed[..i]) && raised.None?
      invariant WeeksHeld(weeks[i..], allDialogues[i..], parsed[i..])
    {
      AllObjsHas(allDialogues, i);
      saved, raised := SaveWeekAt(weeks, allDialogues, parsed, i, saved);
      if raised.Some? {
        return;
      }
    }
    assert parsed[..|parsed|] == parsed;
  }

  /** One pass of the step-4 loop, for week `i`: the later weeks' dictionaries are left as they were. */
  method SaveWeekAt(weeks: seq<(WeekDoc, string)>, allDialogues: seq<seq<TurnObj>>, ghost parsed: seq<Parsed>, i: nat, saved: seq<Saved>)
    returns (saved': seq<Saved>, raised: Option<Exception>)
    requires i < |allDialogues| && |weeks| == |parsed| == |allDialogues|
    requires (saved, None) == Step4Files(parsed[..i])
    requires WeeksHeld(weeks[i..], allDialogues[i..], parsed[i..])
    modifies Objs(allDialogues[i])
    ensures raised.None? ==> (saved', raised) == Step4Files(parsed[..i + 1])
    ensures raised.None? ==> WeeksHeld(weeks[i + 1..], allDialogues[i + 1..], parsed[i + 1..])
    ensures raised.Some? ==> (saved', raised) == Step4Files(parsed)
  {
    HeldTail(weeks[i..], allDialogues[i..], parsed[i..]);
    assert weeks[i..][1..] == weeks[i + 1..] && allDialogues[i..][1..] == allDialogues[i + 1..] && parsed[i..][1..] == parsed[i + 1..];
    Step4Snoc(parsed, i);
    saved', raised := SaveOneWeek(saved, parsed[i], weeks[i].0, weeks[i].1, allDialogues[i]);
    if raised.Some? {
      Step4Stops(parsed, i + 1);
    }
  }

  /** One pass of the step-4 loop, before anything has raised. */
  method SaveOneWeek(saved: seq<Saved>, ghost w: Parsed, d: WeekDoc, text: string, turns: seq<TurnObj>)
    returns (saved': seq<Saved>, raised: Option<Exception>)
    requires (d, text) == (w.doc, w.text) && Distinct(turns) && Values(turns) == w.turns
    modifies Objs(turns)
    ensures (saved', raised) == Step4Week((saved, None), w)
  {
    var r := SaveWeek(d, text, turns);
    if r.Err? {
      return saved, Some(r.error);
    }
    return saved + r.value, None;
  }

  lemma Step4Snoc(weeks: seq<Parsed>, i: nat)
    requires i < |weeks|
    ensures Step4Files(weeks[..i + 1]) == Step4Week(Step4Files(weeks[..i]), weeks[i])
  {
    assert weeks[..i + 1][..i] == weeks[..i];
  }

  method RunPreprocessing(texts: map<string, string>) returns (saved: seq<Saved>, raised: Option<Exception>)
    ensures (saved, raised) == ScriptFiles(texts)
  {
    var weeks, allDialogues, parsed := ParseWeeks(texts);
    saved, raised := SaveWeeks(weeks, allDialogues, parsed);
  }

  lemma {:induction false} ParsedWeeksNumbered(texts: map<string, string>, docs: seq<WeekDoc>)
    ensures forall w :: w in ParsedWeeks(texts, docs) ==> NumberedFromOne(w.turns) && w.doc in docs
    decreases |docs|
  {
    if |docs| > 0 {
      var d := docs[|docs| - 1];
      ParsedWeeksNumbered(texts, docs[..|docs| - 1]);
      if d.key in texts {
        FormatTurnsNumbered(texts[d.key], d.format);
      }
    }
  }

  lemma {:induction false} Step4Good(weeks: seq<Parsed>)
    requires forall w :: w in weeks ==> NumberedFromOne(w.turns)
    ensures Step4Files(weeks).1.Some? ==> Step4Files(weeks).1 == Some(TypeError)
    ensures forall f :: f in Step4Files(weeks).0 ==> exists w :: w in weeks && GoodFile(w.doc, f)
    decreases |weeks|
  {
    if |weeks| > 0 {
      var init := weeks[..|weeks| - 1];
      var w := weeks[|weeks| - 1];
      Step4Good(init);
      var prev := Step4Files(init);
      if prev.1.None? {
        WeekFilesSpec(w.doc, w.text, w.turns);
        forall f | f in Step4Files(weeks).0 ensures exists x :: x in weeks && GoodFile(x.doc, f) {
          if f in prev.0 {
            var x :| x in init && GoodFile(x.doc, f);
            assert x in weeks;
          } else {
            assert GoodFile(w.doc, f);
          }
        }
      } else {
        forall f | f in Step4Files(weeks).0 ensures exists x :: x in weeks && GoodFile(x.doc, f) {
          var x :| x in init && GoodFile(x.doc, f);
          assert x in weeks;
        }
      }
    }
  }

  /**
   * The whole script: it stops only on a `TypeError` from the splitter, and
   * every file it saves belongs to a week of the table: non-empty, numbered
   * 1..n, tagged with that week's student and named `W<week>_T<1..3>.json`.
   */
  lemma ScriptSpec(texts: map<string, string>)
    ensures ScriptFiles(texts).1.Some? ==> ScriptFiles(texts).1 == Some(TypeError)
    ensures forall f :: f in ScriptFiles(texts).0 ==> exists d :: d in Documents && GoodFile(d, f)
  {
    ParsedWeeksNumbered(texts, Documents);
    Step4Good(ParsedWeeks(texts, Documents));
  }
}
