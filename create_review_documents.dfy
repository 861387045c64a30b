/**
 * `create_review_documents.py`: the merged review record of one dialogue
 * (its turns, its repair annotations and their summary counts) and the
 * printable full-dialogue text of the weekly review document.
 */
module CreateReviewDocuments {
  import opened Wrappers
  import opened Repairs
  import opened Text
  import TaskClassifier

  // ---------------------------------------------------------------------
  // Python built-ins on JSON values
  // ---------------------------------------------------------------------

  /** `len(v)`: `None` and integers have no length. */
  function Len(v: JVal): (r: Result<nat, Exception>)
    ensures r.Err? <==> v.JNull? || v.JInt?
    ensures v.JList? ==> r == Ok(|v.items|)
  {
    if v.JList? then Ok(|v.items|)
    else if v.JStr? then Ok(|v.s|)
    else if v.JObj? then Ok(|v.fields|)
    else Err(TypeError)
  }

  /**
   * The elements `for x in v` visits when each must be a dict: the items of
   * a list, nothing for an empty string or dict. A non-empty string or dict
   * yields a string first (a character or a key), which has neither `get`
   * nor string subscripts; `None` and integers are not iterable.
   */
  function DictElements(v: JVal, notDict: Exception): (r: Result<seq<JVal>, Exception>)
    ensures r.Ok? <==> (v.JList? && forall k :: 0 <= k < |v.items| ==> v.items[k].JObj?) || EmptyNonList(v)
    ensures r.Ok? ==> forall k :: 0 <= k < |r.value| ==> r.value[k].JObj?
    ensures r.Ok? && v.JList? ==> r.value == v.items
    ensures r.Ok? && !v.JList? ==> r.value == []
  {
    if v.JList? then
      if forall k :: 0 <= k < |v.items| ==> v.items[k].JObj? then Ok(v.items) else Err(notDict)
    else if EmptyNonList(v) then Ok([])
    else if v.JStr? || v.JObj? then Err(notDict)
    else Err(TypeError)
  }

  // ---------------------------------------------------------------------
  // create_merged_document
  // ---------------------------------------------------------------------

  /** `sum(1 for r in rs if r.get(key) in values)` over dicts. */
  function CountWhere(rs: seq<JVal>, key: string, values: set<JVal>): (n: nat)
    requires forall k :: 0 <= k < |rs| ==> rs[k].JObj?
    ensures n <= |rs|
    decreases |rs|
  {
    if |rs| == 0 then 0
    else CountWhere(rs[..|rs| - 1], key, values) + (if Get(rs[|rs| - 1].fields, key, JNull) in values then 1 else 0)
  }

  /** Counting two disjoint sets of codes counts each repair at most once, so never more than the repairs. */
  lemma {:induction false} CountDisjoint(rs: seq<JVal>, key: string, a: set<JVal>, b: set<JVal>)
    requires forall k :: 0 <= k < |rs| ==> rs[k].JObj?
    requires a !! b
    ensures CountWhere(rs, key, a) + CountWhere(rs, key, b) == CountWhere(rs, key, a + b) <= |rs|
    decreases |rs|
  {
    if |rs| > 0 {
      CountDisjoint(rs[..|rs| - 1], key, a, b);
    }
  }

  /** The `summary` block of a merged document. */
  datatype Summary = Summary(repairCount: nat, biCount: nat, liCount: nat, resolvedCount: nat, unresolvedCount: nat)

  /** A merged review document. */
  datatype Merged = Merged(
    dialogueId: JVal,
    studentId: JVal,
    taskTopic: JVal,
    week: int,
    task: int,
    totalTurns: nat,
    totalRepairs: nat,
    turns: JVal,
    repairs: JVal,
    summary: Summary)

  /**
   * The texts `classify_task_topic` joins: `turn.get('text', '')` for every
   * turn, or nothing when that raises (a turn that is not a dict, a text
   * that is not a string, turns that are not iterable).
   */
  function TurnTexts(turns: JVal): (r: Option<seq<string>>)
    ensures r.Some? ==> turns.JList? || EmptyNonList(turns)
    ensures r.Some? && turns.JList? ==> |r.value| == |turns.items|
  {
    var items := DictElements(turns, AttributeError);
    if items.Err? then None
    else if forall k :: 0 <= k < |items.value| ==> Get(items.value[k].fields, "text", JStr("")).JStr? then
      Some(seq(|items.value|, k requires 0 <= k < |items.value| => Get(items.value[k].fields, "text", JStr("")).s))
    else None
  }

  /**
   * `get_task_topic`: the topic the keyword classifier names for the
   * dialogue's turns, or 'Unknown' when it names none or raises.
   */
  function TaskTopicOf(dialogue: Fields): string {
    match TurnTexts(Get(dialogue, "turns", JList([])))
    case None => "Unknown"
    case Some(texts) =>
      match TaskClassifier.Classify(TaskClassifier.TaskTopics, TaskClassifier.AllText(texts))
      case Some(t) => if t != "" then t else "Unknown"
      case None => "Unknown"
  }

  /** The classifier's answer is 'Unknown' or the name of one of its topics. */
  lemma TaskTopicOfNames(dialogue: Fields)
    ensures TaskTopicOf(dialogue) == "Unknown" ||
      exists i :: 0 <= i < |TaskClassifier.TaskTopics| && TaskClassifier.TaskTopics[i].0 == TaskTopicOf(dialogue)
  {
    var texts := TurnTexts(Get(dialogue, "turns", JList([])));
    if texts.Some? {
      TaskClassifier.ClassifySpec(TaskClassifier.TaskTopics, TaskClassifier.AllText(texts.value));
    }
  }

  /** `int(name[i])`: `IndexError` past the end, `ValueError` for a character that is not a digit. */
  function DigitAt(name: string, i: nat): (r: Result<int, Exception>)
    ensures r.Ok? <==> i < |name| && IsDigit(name[i])
    ensures r.Ok? ==> 0 <= r.value <= 9 && DigitChar(r.value) == name[i]
  {
    if i >= |name| then Err(IndexError)
    else if IsDigit(name[i]) then Ok(DigitValue(name[i]))
    else Err(ValueError)
  }

  /**
   * `create_merged_document(dialogue_file, repair_file)`. The dialogue file
   * has already been read into `dialogue`; `name` and `stem` are its file
   * name and stem; `repairFile` is the parsed repair file, or `None` when
   * it does not exist. The fields are computed in the source's order, so
   * the first failing one decides the exception.
   */
  function MergedDocument(name: string, stem: string, dialogue: Fields, repairFile: Option<JVal>): Result<Merged, Exception> {
    var repairs := if repairFile.Some? then repairFile.value else JList([]);
    var existing := Get(dialogue, "task_topic", JNull);
    var topic := if Truthy(existing) then existing else JStr(TaskTopicOf(dialogue));
    var week := DigitAt(name, 1);
    if week.Err? then Err(week.error)
    else
      var task := DigitAt(name, 4);
      if task.Err? then Err(task.error)
      else
        var turns := Get(dialogue, "turns", JList([]));
        var totalTurns := Len(turns);
        if totalTurns.Err? then Err(totalTurns.error)
        else
          var totalRepairs := Len(repairs);
          if totalRepairs.Err? then Err(totalRepairs.error)
          else
            var rs := DictElements(repairs, AttributeError);
            if rs.Err? then Err(rs.error)
            else
              var summary := Summary(
                totalRepairs.value,
                CountWhere(rs.value, "initiation", {JStr("BI")}),
                CountWhere(rs.value, "initiation", {JStr("LI")}),
                CountWhere(rs.value, "resolution", {JStr("R")}),
                CountWhere(rs.value, "resolution", {JStr("U-A"), JStr("U-P")}));
              Ok(Merged(Get(dialogue, "dialogue_id", JStr(stem)), Get(dialogue, "student_id", JNull), topic,
                        week.value, task.value, totalTurns.value, totalRepairs.value, turns, repairs, summary))
  }

  /**
   * The counts of a merged document: as many repairs in total as in the
   * summary, as many as the repair list holds; bot- and learner-initiated
   * repairs together, and resolved and unresolved ones together, never
   * outnumber the repairs; a missing repair file gives an empty list and
   * zero counts.
   */
  lemma MergedCounts(name: string, stem: string, dialogue: Fields, repairFile: Option<JVal>)
    requires MergedDocument(name, stem, dialogue, repairFile).Ok?
    ensures var m := MergedDocument(name, stem, dialogue, repairFile).value;
      m.totalRepairs == m.summary.repairCount &&
      (m.repairs.JList? ==> m.totalRepairs == |m.repairs.items|) &&
      (m.turns.JList? ==> m.totalTurns == |m.turns.items|) &&
      m.summary.biCount + m.summary.liCount <= m.summary.repairCount &&
      m.summary.resolvedCount + m.summary.unresolvedCount <= m.summary.repairCount &&
      (repairFile.None? ==>
        (m.repairs == JList([]) && m.totalRepairs == 0 && m.summary == Summary(0, 0, 0, 0, 0)))
  {
    var repairs := if repairFile.Some? then repairFile.value else JList([]);
    var rs := DictElements(repairs, AttributeError).value;
    CountDisjoint(rs, "initiation", {JStr("BI")}, {JStr("LI")});
    CountDisjoint(rs, "resolution", {JStr("R")}, {JStr("U-A"), JStr("U-P")});
  }

  /**
   * The topic of a merged document is the dialogue's own `task_topic` when
   * that is truthy; otherwise the classifier's topic, which is 'Unknown'
   * or one of the classifier's topic names.
   */
  lemma MergedTopic(name: string, stem: string, dialogue: Fields, repairFile: Option<JVal>)
    requires MergedDocument(name, stem, dialogue, repairFile).Ok?
    ensures var m := MergedDocument(name, stem, dialogue, repairFile).value;
      var existing := Get(dialogue, "task_topic", JNull);
      (Truthy(existing) ==> m.taskTopic == existing) &&
      (!Truthy(existing) ==>
        (m.taskTopic.JStr? &&
         (m.taskTopic.s == "Unknown" ||
          exists i :: 0 <= i < |TaskClassifier.TaskTopics| && TaskClassifier.TaskTopics[i].0 == m.taskTopic.s)))
  {
    TaskTopicOfNames(dialogue);
  }

  /**
   * The week and task are the digits at positions 1 and 4 of the file name:
   * `W1_T1.json` reads as week 1, task 1 and `W4_T3.json` as week 4, task 3,
   * while a student-prefixed name such as `S18_W1_T1.json` has `W` at
   * position 4 and raises `ValueError`, and a name shorter than five
   * characters raises `IndexError`.
   */
  lemma FileNameDigits(dialogue: Fields, repairFile: Option<JVal>)
    ensures var m := MergedDocument("W1_T1.json", "W1_T1", dialogue, repairFile);
      m.Ok? ==> m.value.week == 1 && m.value.task == 1
    ensures var m := MergedDocument("W4_T3.json", "W4_T3", dialogue, repairFile);
      m.Ok? ==> m.value.week == 4 && m.value.task == 3
    ensures MergedDocument("S18_W1_T1.json", "S18_W1_T1", dialogue, repairFile) == Err(ValueError)
    ensures MergedDocument("W1", "W1", dialogue, repairFile) == Err(IndexError)
  {
    assert "S18_W1_T1.json"[1] == '1' && "S18_W1_T1.json"[4] == 'W';
    assert "W1_T1.json"[1] == '1' && "W1_T1.json"[4] == '1';
    assert "W4_T3.json"[1] == '4' && "W4_T3.json"[4] == '3';
  }

  // ---------------------------------------------------------------------
  // create_full_dialogue_text
  // ---------------------------------------------------------------------

  /** `c * n`: the character `c` repeated `n` times. */
  function Repeat(c: char, n: nat): (r: string)
    ensures |r| == n && forall k :: 0 <= k < n ==> r[k] == c
  {
    if n == 0 then "" else Repeat(c, n - 1) + [c]
  }

  /** `"=" * 80`. */
  const Rule: string := Repeat('=', 80)

  /** The three header lines before the turns. */
  const HeaderLines: seq<string> := ["\n" + Rule + "\n", "FULL DIALOGUE\n", Rule + "\n\n"]

  /** `f"{s:>{width}}"`: `s` right-aligned in `width` columns. */
  function PadLeft(s: string, width: nat): (r: string)
    ensures |r| == if |s| < width then width else |s|
    ensures r[|r| - |s|..] == s && forall k :: 0 <= k < |r| - |s| ==> r[k] == ' '
  {
    if |s| < width then seq(width - |s|, _ => ' ') + s else s
  }

  /** `f"{s:{width}s}"`: `s` left-aligned in `width` columns. */
  function PadRight(s: string, width: nat): (r: string)
    ensures |r| == if |s| < width then width else |s|
    ensures r[..|s|] == s && forall k :: |s| <= k < |r| ==> r[k] == ' '
  {
    if |s| < width then s + seq(width - |s|, _ => ' ') else s
  }

  /** `"LEARNER" if speaker == 'learner' else "BOT"`. */
  function SpeakerLabel(speaker: JVal): string {
    if speaker == JStr("learner") then "LEARNER" else "BOT"
  }

  /** The speaker label padded to eight columns. */
  lemma LabelPadded(speaker: JVal)
    ensures PadRight(SpeakerLabel(speaker), 8) == if speaker == JStr("learner") then "LEARNER " else "BOT     "
  {
  }

  /**
   * `str(v)` inside an f-string. Strings print as they are, integers in
   * decimal and `None` as `None`; a list or dict, which Python prints
   * with its `repr`, is not modelled and is reported as `TypeError`.
   */
  function Display(v: JVal): Result<string, Exception> {
    match v
    case JStr(s) => Ok(s)
    case JInt(i) => Ok(IntToString(i))
    case JNull => Ok("None")
    case _ => Err(TypeError)
  }

  /**
   * `f"Turn {turn['turn']:3d} [{speaker_label:8s}]: {turn['text']}\n"`,
   * with the label computed first. A turn that is not a dict cannot be
   * subscripted with a string; a missing key raises `KeyError`; the `d`
   * format accepts only integers, raising `ValueError` for a string and
   * `TypeError` for anything else.
   */
  function TurnLine(turn: JVal): (r: Result<string, Exception>)
    ensures r.Ok? ==>
      (turn.JObj? && "speaker" in turn.fields && "turn" in turn.fields &&
       turn.fields["turn"].JInt? && "text" in turn.fields)
  {
    if !turn.JObj? then Err(TypeError)
    else
      var t := turn.fields;
      if "speaker" !in t then Err(KeyError)
      else
        var who := SpeakerLabel(t["speaker"]);
        if "turn" !in t then Err(KeyError)
        else if !t["turn"].JInt? then Err(if t["turn"].JStr? then ValueError else TypeError)
        else if "text" !in t then Err(KeyError)
        else
          var text := Display(t["text"]);
          if text.Err? then Err(text.error)
          else Ok(FormatLine(t["turn"].i, who, text.value))
  }

  /** The f-string of a turn line once its three fields have been evaluated. */
  function FormatLine(n: int, who: string, text: string): string {
    "Turn " + PadLeft(IntToString(n), 3) + " [" + PadRight(who, 8) + "]: " + text + "\n"
  }

  /** Every turn line starts with `Turn ` and ends with a newline. */
  lemma FormatLineEnds(n: int, who: string, text: string)
    ensures var line := FormatLine(n, who, text);
      |line| >= 5 && line[..5] == "Turn " && line[|line| - 1] == '\n'
  {
    var head := "Turn " + PadLeft(IntToString(n), 3) + " [" + PadRight(who, 8) + "]: " + text;
    assert FormatLine(n, who, text) == head + "\n";
    assert head[..5] == "Turn ";
  }

  /**
   * A turn number from 0 to 999 fills exactly the three columns after
   * `Turn `, so the bracketed label always occupies columns 8 to 20 and
   * the text starts at column 21.
   */
  lemma FormatLineColumns(n: int, who: string, text: string)
    requires 0 <= n < 1000 && |who| <= 8
    ensures var line := FormatLine(n, who, text);
      |line| == 22 + |text| && line[..5] == "Turn " && line[8..21] == " [" + PadRight(who, 8) + "]: " &&
      line[21..|line| - 1] == text && line[|line| - 1] == '\n'
  {
    NatToStringShort(n);
    var num := PadLeft(IntToString(n), 3);
    var pad := PadRight(who, 8);
    var line := FormatLine(n, who, text);
    assert line == ("Turn " + num) + (" [" + pad + "]: ") + (text + "\n");
  }

  /** The values of `rs` in order when none is an exception, else the first exception: a loop that stops at the first raise. */
  function Collect<T>(rs: seq<Result<T, Exception>>): Result<seq<T>, Exception>
    decreases |rs|
  {
    if |rs| == 0 then Ok([])
    else
      var init := Collect(rs[..|rs| - 1]);
      if init.Err? then init
      else if rs[|rs| - 1].Err? then Err(rs[|rs| - 1].error)
      else Ok(init.value + [rs[|rs| - 1].value])
  }

  /** Collecting succeeds exactly when every result is a value, and then keeps every value in order. */
  lemma {:induction false} CollectSpec<T>(rs: seq<Result<T, Exception>>)
    ensures Collect(rs).Ok? <==> forall k :: 0 <= k < |rs| ==> rs[k].Ok?
    ensures Collect(rs).Ok? ==>
      |Collect(rs).value| == |rs| && forall k :: 0 <= k < |rs| ==> Collect(rs).value[k] == rs[k].value
    decreases |rs|
  {
    if |rs| > 0 {
      var init := rs[..|rs| - 1];
      CollectSpec(init);
      assert forall k :: 0 <= k < |init| ==> init[k] == rs[k];
    }
  }

  /** When everything before position `k` is a value and `rs[k]` is not, collecting raises what `rs[k]` raises. */
  lemma {:induction false} CollectFirstError<T>(rs: seq<Result<T, Exception>>, k: nat)
    requires k < |rs| && Collect(rs[..k]).Ok? && rs[k].Err?
    ensures Collect(rs) == Err(rs[k].error)
    decreases |rs|
  {
    if k < |rs| - 1 {
      var init := rs[..|rs| - 1];
      assert init[..k] == rs[..k] && init[k] == rs[k];
      CollectFirstError(init, k);
    } else {
      assert rs[..|rs| - 1] == rs[..k];
    }
  }

  /** The line of every turn, in order. */
  function LineResults(turns: seq<JVal>): (rs: seq<Result<string, Exception>>)
    ensures |rs| == |turns| && forall k :: 0 <= k < |turns| ==> rs[k] == TurnLine(turns[k])
  {
    seq(|turns|, k requires 0 <= k < |turns| => TurnLine(turns[k]))
  }

  /**
   * The lines `for turn in turns` produces: one per element of a list, in
   * order, until one raises; an empty string or dict yields none; the
   * first element of a non-empty string or dict is a string, which cannot
   * be subscripted with a key, and `None` or an integer is not iterable.
   */
  function TurnLines(turns: JVal): Result<seq<string>, Exception> {
    if turns.JList? then Collect(LineResults(turns.items))
    else if EmptyNonList(turns) then Ok([])
    else Err(TypeError)
  }

  /** `create_full_dialogue_text(merged)` for the turns `merged['dialogue']['turns']`. */
  function FullDialogue(turns: JVal): Result<string, Exception> {
    var lines := TurnLines(turns);
    if lines.Err? then Err(lines.error)
    else Ok(Join(HeaderLines + lines.value, ""))
  }

  /** `create_full_dialogue_text`: the header, then a line appended per turn, then the join. */
  method FullDialogueText(turns: JVal) returns (res: Result<string, Exception>)
    ensures res == FullDialogue(turns)
  {
    if !turns.JList? {
      if EmptyNonList(turns) {
        assert HeaderLines + [] == HeaderLines;
        return Ok(Join(HeaderLines, ""));
      }
      return Err(TypeError);
    }
    var lines := AppendTurnLines(HeaderLines, turns.items);
    if lines.Err? {
      return Err(lines.error);
    }
    res := Ok(Join(lines.value, ""));
  }

  /** The loop of `create_full_dialogue_text`: one line appended to `lines` per turn, until a turn raises. */
  method AppendTurnLines(lines0: seq<string>, turns: seq<JVal>) returns (res: Result<seq<string>, Exception>)
    ensures var c := Collect(LineResults(turns));
      && (res.Ok? <==> c.Ok?)
      && (res.Ok? ==> res.value == lines0 + c.value)
      && (res.Err? ==> res.error == c.error)
  {
    ghost var rs := LineResults(turns);
    var lines := lines0;
    for k := 0 to |turns|
      invariant Collect(rs[..k]).Ok? && lines == lines0 + Collect(rs[..k]).value
    {
      var next := AppendTurnLine(rs, turns, k, lines0, lines);
      if next.Err? {
        return next;
      }
      lines := next.value;
    }
    assert rs[..|turns|] == rs;
    return Ok(lines);
  }

  /** One pass of the loop of `create_full_dialogue_text`: the line of turn `k` appended, or its error. */
  method AppendTurnLine(ghost rs: seq<Result<string, Exception>>, turns: seq<JVal>, k: nat, lines0: seq<string>, lines: seq<string>)
    returns (next: Result<seq<string>, Exception>)
    requires rs == LineResults(turns) && k < |turns|
    requires Collect(rs[..k]).Ok? && lines == lines0 + Collect(rs[..k]).value
    ensures next.Ok? ==> Collect(rs[..k + 1]).Ok? && next.value == lines0 + Collect(rs[..k + 1]).value
    ensures next.Err? ==> Collect(rs) == next
  {
    var line := TurnLine(turns[k]);
    assert rs[k] == line;
    if line.Err? {
      CollectFirstError(rs, k);
      return Err(line.error);
    }
    CollectSnoc(rs, k);
    next := Ok(lines + [line.value]);
  }

  /** One more value extends a successful collection by that value. */
  lemma CollectSnoc<T>(rs: seq<Result<T, Exception>>, k: nat)
    requires k < |rs| && Collect(rs[..k]).Ok? && rs[k].Ok?
    ensures Collect(rs[..k + 1]) == Ok(Collect(rs[..k]).value + [rs[k].value])
  {
    assert rs[..k + 1][..k] == rs[..k];
  }

  /** A decimal of at most three characters. */
  lemma NatToStringShort(n: nat)
    requires n < 1000
    ensures |NatToString(n)| <= 3
  {
    if n >= 10 {
      var m := n / 10;
      assert m < 100 && |NatToString(n)| == |NatToString(m)| + 1;
      if m >= 10 {
        assert m / 10 < 10 && |NatToString(m)| == |NatToString(m / 10)| + 1 == 2;
      }
    }
  }

  /**
   * Every turn line reads `Turn `, the turn number right-aligned in three
   * columns, then the speaker label in eight columns between brackets:
   * `LEARNER ` exactly when the speaker is 'learner', `BOT     ` otherwise;
   * for turn numbers 0 to 999 the label always sits in the same columns,
   * and the line ends with the turn text and a newline.
   */
  lemma TurnLineLayout(turn: JVal)
    requires TurnLine(turn).Ok?
    ensures var line := TurnLine(turn).value;
      var n := turn.fields["turn"].i;
      var tag := if turn.fields["speaker"] == JStr("learner") then "LEARNER " else "BOT     ";
      line[..5] == "Turn " && line[|line| - 1] == '\n' &&
      (0 <= n < 1000 ==>
        (|line| >= 22 && line[8..21] == " [" + tag + "]: " &&
         line[21..|line| - 1] == Display(turn.fields["text"]).value))
  {
    var t := turn.fields;
    var who := SpeakerLabel(t["speaker"]);
    var text := Display(t["text"]).value;
    assert TurnLine(turn).value == FormatLine(t["turn"].i, who, text);
    LabelPadded(t["speaker"]);
    if 0 <= t["turn"].i < 1000 {
      FormatLineColumns(t["turn"].i, who, text);
    } else {
      FormatLineEnds(t["turn"].i, who, text);
    }
  }

  /**
   * The full dialogue text is produced exactly when the turns are a list
   * each of whose elements gives a line (so each is a dict), or an empty
   * string or dict.
   */
  lemma FullDialogueOk(turns: JVal)
    ensures FullDialogue(turns).Ok? <==>
      ((turns.JList? && forall k :: 0 <= k < |turns.items| ==> TurnLine(turns.items[k]).Ok?) ||
       EmptyNonList(turns))
  {
    if turns.JList? {
      CollectSpec(LineResults(turns.items));
    }
  }

  /**
   * The turns are visited in order: when the turns before position `k` all
   * give lines and turn `k` does not, the text fails with turn `k`'s error,
   * whatever the later turns hold.
   */
  lemma FullDialogueFirstError(turns: JVal, k: nat)
    requires turns.JList? && k < |turns.items| && TurnLine(turns.items[k]).Err?
    requires forall j :: 0 <= j < k ==> TurnLine(turns.items[j]).Ok?
    ensures FullDialogue(turns) == Err(TurnLine(turns.items[k]).error)
  {
    var rs := LineResults(turns.items);
    CollectSpec(rs[..k]);
    CollectFirstError(rs, k);
  }

  /** The banner the three header lines print: a rule of 80 `=`, the title, a second rule and a blank line. */
  const Banner: string := "\n" + Rule + "\n" + "FULL DIALOGUE\n" + Rule + "\n\n"

  /**
   * The full dialogue text is the banner followed by the turn lines, one
   * per turn in the order of the turns (`CollectSpec`, `LineResults`); no
   * turns print the banner alone.
   */
  lemma FullDialogueLayout(turns: JVal)
    requires FullDialogue(turns).Ok?
    ensures EmptyNonList(turns) ==> FullDialogue(turns).value == Banner
    ensures turns.JList? ==> FullDialogue(turns).value == Banner + Join(Collect(LineResults(turns.items)).value, "")
  {
    var lines := TurnLines(turns).value;
    JoinEmptyAppend(HeaderLines, lines);
    HeaderIsBanner();
    if EmptyNonList(turns) {
      assert lines == [];
    }
  }

  /** The three header lines join to the banner. */
  lemma HeaderIsBanner()
    ensures Join(HeaderLines, "") == Banner
  {
    assert Join(HeaderLines[2..], "") == HeaderLines[2];
    assert Join(HeaderLines, "") == HeaderLines[0] + (HeaderLines[1] + HeaderLines[2]) == Banner;
  }
}
