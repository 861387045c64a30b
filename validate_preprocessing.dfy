/**
 * `scripts/validate_preprocessing.py`: the checks run over every saved
 * dialogue file `S<student>_W<week>_T<task>.json`, the per-file
 * `ValidationResult` and the summary counts of `validate_all_files`.
 *
 * A JSON document is given already decoded; reading it can fail as invalid
 * JSON or as an unreadable file. Only the issue kinds are kept: the
 * messages and `details` dictionaries are not modelled.
 */
module ValidatePreprocessing {
  import opened Wrappers
  import opened Text
  import Discovery
  import Dialogue
  import Pipeline

  datatype Severity = Error | Warning

  datatype Category =
    | FilenameFormat | MetadataMismatch | EmptyDialogue | TurnNumbering | SpeakerLabels
    | ContentQuality | SpeakerPattern | SourceReference | JsonSyntax | FileRead

  /** One issue dictionary: its severity, its category, and which check inside the category raised it. */
  datatype Issue = Issue(severity: Severity, category: Category, check: string)

  /** A JSON scalar as the checks compare it; `Null` is also what `.get` gives for a missing key. */
  datatype Value = Null | Int(i: int) | Str(s: string)

  /** One entry of `"turns"`; a missing `"text"` reads as "". */
  datatype TurnRec = TurnRec(turn: Value, speaker: Value, text: string)

  /** The fields of a dialogue file the checks read; a missing `"turns"` reads as []. */
  datatype DialogueJson = DialogueJson(studentId: Value, week: Value, task: Value, dialogueId: Value, turns: seq<TurnRec>)

  /** What opening and decoding the file gives. */
  datatype ReadOutcome = Parsed(json: DialogueJson) | BadJson | Unreadable

  predicate NoErrors(issues: seq<Issue>) {
    forall k :: 0 <= k < |issues| ==> issues[k].severity != Error
  }

  predicate OnlyWarnings(issues: seq<Issue>) {
    forall k :: 0 <= k < |issues| ==> issues[k].severity == Warning
  }

  // ---------------------------------------------------------------------
  // validate_filename_metadata
  // ---------------------------------------------------------------------

  /** `Path(name).stem`: the name without its suffix. */
  function Stem(name: string): (r: string)
    ensures Discovery.Suffix(name) != "" ==> r + Discovery.Suffix(name) == name
    ensures Discovery.Suffix(name) == "" ==> r == name
  {
    match Discovery.LastDot(name, |name|)
    case Some(i) => if 0 < i < |name| - 1 then name[..i] else name
    case None => name
  }

  /** The text `S{s}_W{w}_T{t}` the regular expression matches. */
  function IdText(s: string, w: string, t: string): string {
    "S" + s + "_W" + w + "_T" + t
  }

  /**
   * `re.match(r'S(\d+)_W(\d+)_T(\d+)', stem)`: the three digit groups of a
   * match at the start of the stem; each group is a whole run of digits.
   */
  function MatchStem(stem: string): (r: Option<(string, string, string)>)
    ensures r.Some? ==> Pipeline.DigitString(r.value.0) && Pipeline.DigitString(r.value.1) && Pipeline.DigitString(r.value.2)
  {
    if |stem| == 0 || stem[0] != 'S' then None else MatchParts(stem[1..])
  }

  /** `a + (b + c + d + e)`, regrouped from the left. */
  lemma Assoc4(a: string, b: string, c: string, d: string, e: string)
    ensures a + b + (c + d + e) == a + b + c + d + e
  {
  }

  lemma IdTextNested(s: string, w: string, t: string)
    ensures IdText(s, w, t) == "S" + (s + "_W" + w + "_T" + t)
  {
    assert "S" + (s + "_W" + w + "_T" + t) == "S" + s + "_W" + w + "_T" + t;
  }

  /** `(\d+)_W(\d+)_T(\d+)` at the start of `a`. */
  function MatchParts(a: string): (r: Option<(string, string, string)>)
    ensures r.Some? ==> Pipeline.DigitString(r.value.0) && Pipeline.DigitString(r.value.1) && Pipeline.DigitString(r.value.2)
  {
    var d := RunLength(a, 0, IsDigit);
    if d == 0 || !StartsAt(a, d, "_W") then None
    else
      match MatchWeekTask(a[d + 2..])
      case None => None
      case Some(wt) => Some((a[..d], wt.0, wt.1))
  }

  /** `(\d+)_T(\d+)` at the start of `b`. */
  function MatchWeekTask(b: string): (r: Option<(string, string)>)
    ensures r.Some? ==> Pipeline.DigitString(r.value.0) && Pipeline.DigitString(r.value.1)
  {
    var d := RunLength(b, 0, IsDigit);
    if d == 0 || !StartsAt(b, d, "_T") then None
    else
      var c := b[d + 2..];
      var e := RunLength(c, 0, IsDigit);
      if e == 0 then None else Some((b[..d], c[..e]))
  }

  /** `s` starts with `p` and the character after it, if any, is not a digit. */
  predicate PrefixEndingRun(s: string, p: string) {
    |p| <= |s| && s[..|p|] == p && (|p| == |s| || !IsDigit(s[|p|]))
  }

  /** A two-character tag found at `d` splits the string around it. */
  lemma SplitAtTag(a: string, d: nat, tag: string)
    requires |tag| == 2 && StartsAt(a, d, tag)
    ensures a == a[..d] + tag + a[d + 2..]
  {
    assert a == a[..d] + a[d..d + 2] + a[d + 2..];
  }

  lemma MatchWeekTaskSound(b: string)
    requires MatchWeekTask(b).Some?
    ensures var g := MatchWeekTask(b).value; PrefixEndingRun(b, g.0 + "_T" + g.1)
  {
    var d := RunLength(b, 0, IsDigit);
    var c := b[d + 2..];
    var e := RunLength(c, 0, IsDigit);
    SplitAtTag(b, d, "_T");
    PrefixEndingRunAppend(b[..d] + "_T", c, e);
  }

  /** A head followed by a digit run that is not continued. */
  lemma PrefixEndingRunAppend(h: string, c: string, e: nat)
    requires e <= |c| && (e == |c| || !IsDigit(c[e]))
    ensures PrefixEndingRun(h + c, h + c[..e])
  {
    assert (h + c)[..|h| + e] == h + c[..e];
    if e < |c| {
      assert (h + c)[|h| + e] == c[e];
    }
  }

  lemma PrefixEndingRunPrepend(x: string, b: string, q: string)
    requires PrefixEndingRun(b, q)
    ensures PrefixEndingRun(x + b, x + q)
  {
    assert (x + b)[..|x + q|] == x + b[..|q|];
    if |x + q| < |x + b| {
      assert (x + b)[|x + q|] == b[|q|];
    }
  }

  lemma MatchPartsSound(a: string)
    requires MatchParts(a).Some?
    ensures var g := MatchParts(a).value; PrefixEndingRun(a, g.0 + "_W" + g.1 + "_T" + g.2)
  {
    var d := RunLength(a, 0, IsDigit);
    var b := a[d + 2..];
    MatchWeekTaskSound(b);
    var g := MatchWeekTask(b).value;
    var x := a[..d] + "_W";
    SplitAtTag(a, d, "_W");
    PrefixEndingRunPrepend(x, b, g.0 + "_T" + g.1);
    Assoc4(a[..d], "_W", g.0, "_T", g.1);
  }

  /** A match is a prefix `S{s}_W{w}_T{t}` of the stem whose last digit run is not continued. */
  lemma MatchStemSound(stem: string)
    requires MatchStem(stem).Some?
    ensures var g := MatchStem(stem).value; PrefixEndingRun(stem, IdText(g.0, g.1, g.2))
  {
    var a := stem[1..];
    assert MatchStem(stem) == MatchParts(a);
    MatchPartsSound(a);
    var g := MatchParts(a).value;
    assert stem == "S" + a;
    PrefixEndingRunPrepend("S", a, g.0 + "_W" + g.1 + "_T" + g.2);
    IdTextNested(g.0, g.1, g.2);
  }

  lemma MatchWeekTaskComposed(w: string, t: string, rest: string)
    requires Pipeline.DigitString(w) && Pipeline.DigitString(t)
    requires rest == [] || !IsDigit(rest[0])
    ensures MatchWeekTask(w + "_T" + (t + rest)) == Some((w, t))
  {
    Pipeline.DigitsThenTag(w, "_T", t + rest);
    var c := t + rest;
    if rest != [] {
      assert c[|t|] == rest[0];
    }
    Pipeline.RunLengthExact(c, 0, |t|, IsDigit);
    assert c[..|t|] == t;
  }

  lemma MatchPartsComposed(s: string, w: string, t: string, rest: string)
    requires Pipeline.DigitString(s) && Pipeline.DigitString(w) && Pipeline.DigitString(t)
    requires rest == [] || !IsDigit(rest[0])
    ensures MatchParts(s + "_W" + (w + "_T" + (t + rest))) == Some((s, w, t))
  {
    Pipeline.DigitsThenTag(s, "_W", w + "_T" + (t + rest));
    MatchWeekTaskComposed(w, t, rest);
  }

  /** Conversely, such a prefix is matched with exactly its three groups. */
  lemma MatchStemComposed(s: string, w: string, t: string, rest: string)
    requires Pipeline.DigitString(s) && Pipeline.DigitString(w) && Pipeline.DigitString(t)
    requires rest == [] || !IsDigit(rest[0])
    ensures MatchStem(IdText(s, w, t) + rest) == Some((s, w, t))
  {
    var a := s + "_W" + (w + "_T" + (t + rest));
    assert IdText(s, w, t) + rest == "S" + a;
    assert ("S" + a)[1..] == a;
    MatchPartsComposed(s, w, t, rest);
  }

  /** One `metadata_mismatch` error for `field` when the check fails. */
  function MismatchIf(differs: bool, field: string): (r: seq<Issue>)
    ensures |r| == (if differs then 1 else 0)
    ensures forall k :: 0 <= k < |r| ==> r[k].severity == Error && r[k].category == MetadataMismatch
  {
    if differs then [Issue(Error, MetadataMismatch, field)] else []
  }

  /**
   * `validate_filename_metadata`: one `filename_format` error when the stem
   * does not start with the pattern; otherwise one `metadata_mismatch` error
   * for each of student id, week, task and dialogue id that disagrees with
   * the name, the numbers read with `int` and the id rebuilt from the raw
   * digit strings.
   */
  function FilenameIssues(j: DialogueJson, stem: string): (r: seq<Issue>)
    ensures MatchStem(stem).None? ==> r == [Issue(Error, FilenameFormat, "filename")]
    ensures MatchStem(stem).Some? ==>
      |r| <= 4 && forall k :: 0 <= k < |r| ==> r[k].severity == Error && r[k].category == MetadataMismatch
    ensures MatchStem(stem).Some? ==> var g := MatchStem(stem).value;
      (r == [] <==>
        j.studentId == Int(ParseNat(g.0)) && j.week == Int(ParseNat(g.1)) &&
        j.task == Int(ParseNat(g.2)) && j.dialogueId == Str(IdText(g.0, g.1, g.2)))
  {
    match MatchStem(stem)
    case None => [Issue(Error, FilenameFormat, "filename")]
    case Some(g) =>
      MismatchIf(j.studentId != Int(ParseNat(g.0)), "student_id")
      + MismatchIf(j.week != Int(ParseNat(g.1)), "week")
      + MismatchIf(j.task != Int(ParseNat(g.2)), "task")
      + MismatchIf(j.dialogueId != Str(IdText(g.0, g.1, g.2)), "dialogue_id")
  }

  // ---------------------------------------------------------------------
  // validate_turn_structure
  // ---------------------------------------------------------------------

  /** `set(range(1, n + 1))`. */
  function Expected(n: nat): (r: set<Value>)
    ensures forall v :: v in r <==> v.Int? && 1 <= v.i <= n
  {
    var r := set k | 1 <= k <= n :: Int(k);
    assert forall v: Value :: v.Int? && 1 <= v.i <= n ==> v == Int(v.i);
    r
  }

  /** `{turn.get("turn") for turn in turns}`. */
  function Actual(turns: seq<TurnRec>): (r: set<Value>)
    ensures forall i :: 0 <= i < |turns| ==> turns[i].turn in r
    ensures forall v :: v in r ==> exists i :: 0 <= i < |turns| && turns[i].turn == v
  {
    set i | 0 <= i < |turns| :: turns[i].turn
  }

  /** Some turn number occurs more than once (a `Counter` entry above 1). */
  predicate HasDuplicate(turns: seq<TurnRec>) {
    exists i, j :: 0 <= i < j < |turns| && turns[i].turn == turns[j].turn
  }

  predicate Missing(turns: seq<TurnRec>) {
    Expected(|turns|) - Actual(turns) != {}
  }

  predicate Extra(turns: seq<TurnRec>) {
    Actual(turns) - Expected(|turns|) != {}
  }

  /** The three `turn_numbering` checks, in order: missing, extra, duplicate numbers. */
  function NumberingIssues(turns: seq<TurnRec>): (r: seq<Issue>)
    ensures forall k :: 0 <= k < |r| ==> r[k].severity == Error && r[k].category == TurnNumbering
  {
    (if Missing(turns) then [Issue(Error, TurnNumbering, "missing")] else [])
    + (if Extra(turns) then [Issue(Error, TurnNumbering, "extra")] else [])
    + (if HasDuplicate(turns) then [Issue(Error, TurnNumbering, "duplicate")] else [])
  }

  /** The turn numbers are a permutation of 1..n: each is an integer in range and no two are equal. */
  predicate NumberedPermutation(turns: seq<TurnRec>) {
    (forall i :: 0 <= i < |turns| ==> turns[i].turn.Int? && 1 <= turns[i].turn.i <= |turns|)
    && !HasDuplicate(turns)
  }

  lemma {:induction false} ExpectedCard(n: nat)
    ensures |Expected(n)| == n
  {
    if n > 0 {
      ExpectedCard(n - 1);
      assert Expected(n) == Expected(n - 1) + {Int(n)};
    }
  }

  lemma ActualSnoc(turns: seq<TurnRec>, t: TurnRec)
    ensures Actual(turns + [t]) == Actual(turns) + {t.turn}
  {
    var all := turns + [t];
    assert forall i :: 0 <= i < |turns| ==> all[i] == turns[i];
    assert all[|turns|] == t;
  }

  /** A repeat in `turns + [t]` is a repeat in `turns` or a repeat of `t`'s number. */
  lemma DuplicateSnoc(turns: seq<TurnRec>, t: TurnRec)
    ensures HasDuplicate(turns + [t]) <==> HasDuplicate(turns) || t.turn in Actual(turns)
  {
    var all := turns + [t];
    if HasDuplicate(all) {
      var i, j :| 0 <= i < j < |all| && all[i].turn == all[j].turn;
      if j == |turns| {
        assert turns[i].turn == t.turn;
      } else {
        assert turns[i].turn == turns[j].turn;
      }
    }
    if HasDuplicate(turns) {
      var i, j :| 0 <= i < j < |turns| && turns[i].turn == turns[j].turn;
      assert all[i].turn == all[j].turn;
    }
    if t.turn in Actual(turns) {
      var i :| 0 <= i < |turns| && turns[i].turn == t.turn;
      assert all[i].turn == all[|turns|].turn;
    }
  }

  /** There are at most as many distinct numbers as turns, exactly as many when none repeats. */
  lemma {:induction false} ActualCard(turns: seq<TurnRec>)
    ensures |Actual(turns)| <= |turns|
    ensures |Actual(turns)| == |turns| <==> !HasDuplicate(turns)
    decreases |turns|
  {
    if |turns| > 0 {
      var init := turns[..|turns| - 1];
      var t := turns[|turns| - 1];
      assert turns == init + [t];
      ActualCard(init);
      ActualSnoc(init, t);
      DuplicateSnoc(init, t);
    }
  }

  lemma EmptyDifference(a: set<Value>, b: set<Value>)
    requires a - b == {}
    ensures a <= b
  {
    forall x | x in a ensures x in b {
      assert x !in a - b;
    }
  }

  lemma SubsetCard(a: set<Value>, b: set<Value>)
    requires a <= b
    ensures |a| <= |b|
    ensures |a| == |b| ==> a == b
  {
    assert b == a + (b - a);
  }

  /**
   * Pigeonhole: with n turns and n expected numbers, a number is missing
   * exactly when one is out of range or repeated.
   */
  lemma MissingIffExtraOrDuplicate(turns: seq<TurnRec>)
    ensures Missing(turns) <==> Extra(turns) || HasDuplicate(turns)
  {
    var n := |turns|;
    var e := Expected(n);
    var a := Actual(turns);
    ExpectedCard(n);
    ActualCard(turns);
    if !Extra(turns) && !HasDuplicate(turns) {
      EmptyDifference(a, e);
      SubsetCard(a, e);
    }
    if !Missing(turns) {
      EmptyDifference(e, a);
      SubsetCard(e, a);
    }
  }

  /** No numbering error is reported exactly when the numbers are a permutation of 1..n. */
  lemma NumberingSpec(turns: seq<TurnRec>)
    ensures NumberingIssues(turns) == [] <==> NumberedPermutation(turns)
    ensures |NumberingIssues(turns)| != 1
  {
    MissingIffExtraOrDuplicate(turns);
    if NumberedPermutation(turns) {
      assert Actual(turns) <= Expected(|turns|);
    }
    if !Extra(turns) {
      EmptyDifference(Actual(turns), Expected(|turns|));
    }
  }

  /** A permutation of 1..n uses every number from 1 to n. */
  lemma PermutationCovers(turns: seq<TurnRec>, k: int)
    requires NumberedPermutation(turns) && 1 <= k <= |turns|
    ensures exists i :: 0 <= i < |turns| && turns[i].turn == Int(k)
  {
    NumberingSpec(turns);
    EmptyDifference(Expected(|turns|), Actual(turns));
    assert Int(k) in Expected(|turns|);
    assert Int(k) in Actual(turns);
  }

  /** The speakers `validate_turn_structure` accepts. */
  predicate ValidSpeaker(v: Value) {
    v == Str("learner") || v == Str("bot")
  }

  predicate BlankText(t: TurnRec) {
    Strip(t.text) == ""
  }

  predicate InvalidSpeaker(t: TurnRec) {
    !ValidSpeaker(t.speaker)
  }

  /** The 1-based positions of the turns satisfying `p`, in order: what an `enumerate(turns, 1)` loop collects. */
  function Positions(turns: seq<TurnRec>, p: TurnRec -> bool): (r: seq<nat>)
    ensures |r| <= |turns|
    decreases |turns|
  {
    if |turns| == 0 then []
    else Positions(turns[..|turns| - 1], p) + (if p(turns[|turns| - 1]) then [|turns|] else [])
  }

  /** A position is collected exactly when its turn satisfies `p`. */
  lemma {:induction false} PositionsMembers(turns: seq<TurnRec>, p: TurnRec -> bool)
    ensures forall k :: k in Positions(turns, p) <==> 1 <= k <= |turns| && p(turns[k - 1])
    decreases |turns|
  {
    if |turns| > 0 {
      var init := turns[..|turns| - 1];
      PositionsMembers(init, p);
      assert forall j :: 0 <= j < |init| ==> init[j] == turns[j];
    }
  }

  lemma PositionsEmpty(turns: seq<TurnRec>, p: TurnRec -> bool)
    ensures Positions(turns, p) == [] <==> forall i :: 0 <= i < |turns| ==> !p(turns[i])
  {
    var ps := Positions(turns, p);
    PositionsMembers(turns, p);
    if ps != [] {
      assert ps[0] in ps;
      assert p(turns[ps[0] - 1]);
    } else {
      forall i | 0 <= i < |turns| ensures !p(turns[i]) {
        assert i + 1 !in ps;
      }
    }
  }

  /** `validate_turn_structure`. */
  function TurnStructureIssues(turns: seq<TurnRec>): seq<Issue> {
    if |turns| == 0 then [Issue(Error, EmptyDialogue, "turns")]
    else
      NumberingIssues(turns) + SpeakerIssue(turns) + BlankIssue(turns)
  }

  lemma NoErrorsConcat(a: seq<Issue>, b: seq<Issue>)
    ensures NoErrors(a + b) <==> NoErrors(a) && NoErrors(b)
  {
    assert forall k :: 0 <= k < |a| ==> (a + b)[k] == a[k];
    assert forall k :: 0 <= k < |b| ==> (a + b)[|a| + k] == b[k];
  }

  /** The speaker and blank-text parts of `validate_turn_structure`. */
  function SpeakerIssue(turns: seq<TurnRec>): seq<Issue> {
    if Positions(turns, InvalidSpeaker) != [] then [Issue(Error, SpeakerLabels, "speaker")] else []
  }

  function BlankIssue(turns: seq<TurnRec>): seq<Issue> {
    if Positions(turns, BlankText) != [] then [Issue(Warning, ContentQuality, "empty_text")] else []
  }

  /**
   * An empty dialogue gives exactly one error; otherwise there is no error
   * exactly when the numbers are a permutation of 1..n and every speaker is
   * `learner` or `bot`.
   */
  lemma TurnStructureErrors(turns: seq<TurnRec>)
    ensures |turns| == 0 ==> TurnStructureIssues(turns) == [Issue(Error, EmptyDialogue, "turns")]
    ensures NoErrors(TurnStructureIssues(turns)) <==>
      |turns| > 0 && NumberedPermutation(turns) && forall i :: 0 <= i < |turns| ==> ValidSpeaker(turns[i].speaker)
  {
    if |turns| == 0 {
      assert TurnStructureIssues(turns)[0].severity == Error;
    } else {
      var n := NumberingIssues(turns);
      var sp := SpeakerIssue(turns);
      assert TurnStructureIssues(turns) == n + sp + BlankIssue(turns);
      NumberingSpec(turns);
      PositionsEmpty(turns, InvalidSpeaker);
      NoErrorsConcat(n + sp, BlankIssue(turns));
      NoErrorsConcat(n, sp);
      assert NoErrors(n) <==> n == [] by {
        if n != [] {
          assert n[0].severity == Error;
        }
      }
      assert NoErrors(sp) <==> sp == [] by {
        if sp != [] {
          assert sp[0].severity == Error;
        }
      }
      assert NoErrors(BlankIssue(turns));
    }
  }

  /** Blank text is reported, as a warning, exactly when some turn's text strips to "". */
  lemma TurnStructureBlank(turns: seq<TurnRec>)
    requires |turns| > 0
    ensures Issue(Warning, ContentQuality, "empty_text") in TurnStructureIssues(turns) <==>
      exists i :: 0 <= i < |turns| && BlankText(turns[i])
  {
    var n := NumberingIssues(turns);
    var sp := SpeakerIssue(turns);
    assert TurnStructureIssues(turns) == (n + sp) + BlankIssue(turns);
    PositionsEmpty(turns, BlankText);
    assert forall k :: 0 <= k < |n + sp| ==> (n + sp)[k].severity == Error;
    WarningInTail(n + sp, BlankIssue(turns), Issue(Warning, ContentQuality, "empty_text"));
  }

  /** A warning is in errors followed by `b` exactly when it is in `b`. */
  lemma WarningInTail(a: seq<Issue>, b: seq<Issue>, x: Issue)
    requires x.severity == Warning
    requires forall k :: 0 <= k < |a| ==> a[k].severity == Error
    ensures x in a + b <==> x in b
  {
    assert x !in a;
  }

  /** One `for i, turn in enumerate(turns, 1)` loop collecting the positions where `p` holds. */
  method CollectPositions(turns: seq<TurnRec>, p: TurnRec -> bool) returns (found: seq<nat>)
    ensures found == Positions(turns, p)
  {
    found := [];
    for i := 0 to |turns|
      invariant found == Positions(turns[..i], p)
    {
      assert turns[..i + 1][..i] == turns[..i];
      if p(turns[i]) {
        found := found + [i + 1];
      }
    }
    assert turns[..|turns|] == turns;
  }

  /** The numbering part of `validate_turn_structure`, on a non-empty list. */
  method CheckNumbering(turns: seq<TurnRec>) returns (issues: seq<Issue>)
    ensures issues == NumberingIssues(turns)
  {
    issues := [];
    var expected := Expected(|turns|);
    var actual := Actual(turns);
    if expected - actual != {} {
      issues := issues + [Issue(Error, TurnNumbering, "missing")];
    }
    if actual - expected != {} {
      issues := issues + [Issue(Error, TurnNumbering, "extra")];
    }
    if HasDuplicate(turns) {
      issues := issues + [Issue(Error, TurnNumbering, "duplicate")];
    }
  }

  /** `validate_turn_structure`, with its two `enumerate` loops. */
  method ValidateTurnStructure(turns: seq<TurnRec>) returns (issues: seq<Issue>)
    ensures issues == TurnStructureIssues(turns)
  {
    if |turns| == 0 {
      return [Issue(Error, EmptyDialogue, "turns")];
    }
    issues := CheckNumbering(turns);
    var invalid := CollectPositions(turns, InvalidSpeaker);
    if invalid != [] {
      issues := issues + [Issue(Error, SpeakerLabels, "speaker")];
    }
    var empty := CollectPositions(turns, BlankText);
    if empty != [] {
      issues := issues + [Issue(Warning, ContentQuality, "empty_text")];
    }
  }

  // ---------------------------------------------------------------------
  // validate_content_quality
  // ---------------------------------------------------------------------

  /** Five whitespace characters start at `i`. */
  predicate SpaceRunAt(text: string, i: nat) {
    i + 5 <= |text| && AllSpace(text[i..i + 5])
  }

  /** The encoding check of one text: a U+FFFD replacement character, or `re.search(r'\s{5,}', text)`. */
  predicate HasReplacement(text: string) {
    '\U{FFFD}' in text
  }

  predicate HasSpaceRun(text: string) {
    exists i: nat :: i <= |text| && SpaceRunAt(text, i)
  }

  predicate EncodingSuspect(t: TurnRec) {
    HasReplacement(t.text) || HasSpaceRun(t.text)
  }

  /**
   * The positions the encoding loop appends: once for a replacement
   * character and once more for a whitespace run.
   */
  function EncodingPositions(turns: seq<TurnRec>): (r: seq<nat>)
    ensures forall k :: k in r <==> 1 <= k <= |turns| && EncodingSuspect(turns[k - 1])
    decreases |turns|
  {
    if |turns| == 0 then []
    else
      var n := |turns|;
      var text := turns[n - 1].text;
      EncodingPositions(turns[..n - 1])
      + (if HasReplacement(text) then [n] else [])
      + (if HasSpaceRun(text) then [n] else [])
  }

  datatype LengthFlag = TooShort | TooLong

  function StrippedLength(t: TurnRec): nat {
    |Strip(t.text)|
  }

  /** `"too_short"` under 2 characters, `"too_long"` over 2000, nothing in between. */
  function LengthFlagOf(len: nat): (r: Option<LengthFlag>)
    ensures r == Some(TooShort) <==> len < 2
    ensures r == Some(TooLong) <==> len > 2000
  {
    if len < 2 then Some(TooShort) else if len > 2000 then Some(TooLong) else None
  }

  predicate LengthSuspect(t: TurnRec) {
    LengthFlagOf(StrippedLength(t)).Some?
  }

  /** `(i, flag, len(text))` for each turn whose stripped text is flagged, in order. */
  function SuspiciousTurns(turns: seq<TurnRec>): (r: seq<(nat, LengthFlag, nat)>)
    ensures forall k :: 0 <= k < |r| ==>
      1 <= r[k].0 <= |turns| && r[k].2 == StrippedLength(turns[r[k].0 - 1]) && LengthFlagOf(r[k].2) == Some(r[k].1)
    decreases |turns|
  {
    if |turns| == 0 then []
    else
      var n := |turns|;
      var len := StrippedLength(turns[n - 1]);
      SuspiciousTurns(turns[..n - 1])
      + (match LengthFlagOf(len) case Some(f) => [(n, f, len)] case None => [])
  }

  /** `validate_content_quality`. */
  function ContentQualityIssues(turns: seq<TurnRec>): seq<Issue> {
    (if EncodingPositions(turns) != [] then [Issue(Warning, ContentQuality, "encoding")] else [])
    + (if SuspiciousTurns(turns) != [] then [Issue(Warning, ContentQuality, "length")] else [])
  }

  lemma EncodingPositionsEmpty(turns: seq<TurnRec>)
    ensures EncodingPositions(turns) != [] <==> exists i :: 0 <= i < |turns| && EncodingSuspect(turns[i])
  {
    var enc := EncodingPositions(turns);
    if enc != [] {
      assert enc[0] in enc;
    }
    if exists i :: 0 <= i < |turns| && EncodingSuspect(turns[i]) {
      var i :| 0 <= i < |turns| && EncodingSuspect(turns[i]);
      assert i + 1 in enc;
    }
  }

  lemma {:induction false} SuspiciousTurnsEmpty(turns: seq<TurnRec>)
    ensures SuspiciousTurns(turns) != [] <==> exists i :: 0 <= i < |turns| && LengthSuspect(turns[i])
    decreases |turns|
  {
    if |turns| > 0 {
      var n := |turns|;
      var init := turns[..n - 1];
      SuspiciousTurnsEmpty(init);
      if SuspiciousTurns(init) != [] {
        var i :| 0 <= i < |init| && LengthSuspect(init[i]);
        assert turns[i] == init[i];
      }
    }
  }

  /**
   * Content quality yields warnings only: one when some text holds U+FFFD or
   * a run of five whitespace characters, one when some stripped text is
   * shorter than 2 or longer than 2000 characters.
   */
  lemma ContentQualitySpec(turns: seq<TurnRec>)
    ensures OnlyWarnings(ContentQualityIssues(turns)) && |ContentQualityIssues(turns)| <= 2
    ensures Issue(Warning, ContentQuality, "encoding") in ContentQualityIssues(turns) <==>
      exists i :: 0 <= i < |turns| && EncodingSuspect(turns[i])
    ensures Issue(Warning, ContentQuality, "length") in ContentQualityIssues(turns) <==>
      exists i :: 0 <= i < |turns| && (StrippedLength(turns[i]) < 2 || StrippedLength(turns[i]) > 2000)
  {
    EncodingPositionsEmpty(turns);
    SuspiciousTurnsEmpty(turns);
    assert forall t :: LengthSuspect(t) <==> StrippedLength(t) < 2 || StrippedLength(t) > 2000;
  }

  /** The encoding loop of `validate_content_quality`. */
  method CollectEncoding(turns: seq<TurnRec>) returns (encoding: seq<nat>)
    ensures encoding == EncodingPositions(turns)
  {
    encoding := [];
    for i := 0 to |turns|
      invariant encoding == EncodingPositions(turns[..i])
    {
      assert turns[..i + 1][..i] == turns[..i];
      var text := turns[i].text;
      if HasReplacement(text) {
        encoding := encoding + [i + 1];
      }
      if HasSpaceRun(text) {
        encoding := encoding + [i + 1];
      }
    }
    assert turns[..|turns|] == turns;
  }

  /** The length loop of `validate_content_quality`. */
  method CollectSuspicious(turns: seq<TurnRec>) returns (suspicious: seq<(nat, LengthFlag, nat)>)
    ensures suspicious == SuspiciousTurns(turns)
  {
    suspicious := [];
    for i := 0 to |turns|
      invariant suspicious == SuspiciousTurns(turns[..i])
    {
      assert turns[..i + 1][..i] == turns[..i];
      var len := StrippedLength(turns[i]);
      if len < 2 {
        suspicious := suspicious + [(i + 1, TooShort, len)];
      } else if len > 2000 {
        suspicious := suspicious + [(i + 1, TooLong, len)];
      }
    }
    assert turns[..|turns|] == turns;
  }

  /** `validate_content_quality`. */
  method ValidateContentQuality(turns: seq<TurnRec>) returns (issues: seq<Issue>)
    ensures issues == ContentQualityIssues(turns)
  {
    issues := [];
    var encoding := CollectEncoding(turns);
    if encoding != [] {
      issues := issues + [Issue(Warning, ContentQuality, "encoding")];
    }
    var suspicious := CollectSuspicious(turns);
    if suspicious != [] {
      issues := issues + [Issue(Warning, ContentQuality, "length")];
    }
  }

  // ---------------------------------------------------------------------
  // validate_speaker_alternation
  // ---------------------------------------------------------------------

  /** The pairs `(i, i + 1)` of adjacent turns, 1-based, whose speakers are equal. */
  function SamePairs(turns: seq<TurnRec>): (r: seq<(nat, nat)>)
    ensures |turns| <= 1 ==> r == []
    ensures |turns| >= 1 ==> |r| <= |turns| - 1
    decreases |turns|
  {
    if |turns| <= 1 then []
    else
      var n := |turns|;
      SamePairs(turns[..n - 1]) + (if turns[n - 2].speaker == turns[n - 1].speaker then [(n - 1, n)] else [])
  }

  /**
   * `validate_speaker_alternation`: one warning when more than 30% of the
   * turns start a same-speaker pair (`len(pairs) > len(turns) * 0.3`, here in
   * integers); nothing for fewer than two turns.
   */
  function AlternationIssues(turns: seq<TurnRec>): seq<Issue> {
    if |turns| < 2 then []
    else
      var pairs := |SamePairs(turns)|;
      if pairs > 0 && 10 * pairs > 3 * |turns| then [Issue(Warning, SpeakerPattern, "consecutive")] else []
  }

  /** The pairs collected are exactly the adjacent positions with equal speakers. */
  lemma {:induction false} SamePairsMembers(turns: seq<TurnRec>)
    ensures forall q :: q in SamePairs(turns) <==>
      1 <= q.0 && q.1 == q.0 + 1 && q.1 <= |turns| && turns[q.0 - 1].speaker == turns[q.0].speaker
    decreases |turns|
  {
    if |turns| > 1 {
      var init := turns[..|turns| - 1];
      SamePairsMembers(init);
      assert forall j :: 0 <= j < |init| ==> init[j] == turns[j];
    }
  }

  lemma SamePairsSnoc(turns: seq<TurnRec>, i: nat)
    requires i + 1 < |turns|
    ensures SamePairs(turns[..i + 2]) ==
      SamePairs(turns[..i + 1]) + (if turns[i].speaker == turns[i + 1].speaker then [(i + 1, i + 2)] else [])
  {
    assert turns[..i + 2][..i + 1] == turns[..i + 1];
  }

  lemma {:induction false} SamePairsAllSame(turns: seq<TurnRec>)
    requires |turns| >= 1 && forall i :: 0 <= i < |turns| ==> turns[i].speaker == turns[0].speaker
    ensures |SamePairs(turns)| == |turns| - 1
    decreases |turns|
  {
    if |turns| > 1 {
      SamePairsAllSame(turns[..|turns| - 1]);
    }
  }

  /**
   * At most one warning; none when the speakers alternate, one whenever two
   * or more turns all have the same speaker.
   */
  lemma AlternationSpec(turns: seq<TurnRec>)
    ensures OnlyWarnings(AlternationIssues(turns)) && |AlternationIssues(turns)| <= 1
    ensures (forall i :: 0 <= i < |turns| - 1 ==> turns[i].speaker != turns[i + 1].speaker) ==>
      AlternationIssues(turns) == []
    ensures |turns| >= 2 && (forall i :: 0 <= i < |turns| ==> turns[i].speaker == turns[0].speaker) ==>
      AlternationIssues(turns) == [Issue(Warning, SpeakerPattern, "consecutive")]
  {
    SamePairsMembers(turns);
    if SamePairs(turns) != [] {
      var q := SamePairs(turns)[0];
      assert q in SamePairs(turns);
    }
    if |turns| >= 2 && (forall i :: 0 <= i < |turns| ==> turns[i].speaker == turns[0].speaker) {
      SamePairsAllSame(turns);
    }
  }

  /** The `for i in range(len(turns) - 1)` loop of `validate_speaker_alternation`. */
  method ValidateSpeakerAlternation(turns: seq<TurnRec>) returns (issues: seq<Issue>)
    ensures issues == AlternationIssues(turns)
  {
    if |turns| < 2 {
      return [];
    }
    var pairs: seq<(nat, nat)> := [];
    for i := 0 to |turns| - 1
      invariant pairs == SamePairs(turns[..i + 1])
    {
      SamePairsSnoc(turns, i);
      if turns[i].speaker == turns[i + 1].speaker {
        pairs := pairs + [(i + 1, i + 2)];
      }
    }
    assert turns[..|turns|] == turns;
    issues := [];
    if |pairs| > 0 && 10 * |pairs| > 3 * |turns| {
      issues := [Issue(Warning, SpeakerPattern, "consecutive")];
    }
  }

  // ---------------------------------------------------------------------
  // ValidationResult and validate_json_file
  // ---------------------------------------------------------------------

  /** The `stats` a parsed file records (the speaker distribution is not kept). */
  datatype Stats = Stats(totalTurns: nat, studentId: Value, week: Value, task: Value, dialogueId: Value)

  /** What the summary reads from one result. */
  datatype FileReport = FileReport(path: string, issues: seq<Issue>, totalTurns: nat)

  class ValidationResult {
    const filePath: string
    var issues: seq<Issue>
    var warnings: seq<Issue>
    /** `None` while `stats` is still the empty dictionary. */
    var stats: Option<Stats>

    constructor(filePath: string)
      ensures this.filePath == filePath && issues == [] && warnings == [] && stats == None
    {
      this.filePath := filePath;
      issues := [];
      warnings := [];
      stats := None;
    }

    method AddIssue(severity: Severity, category: Category, check: string)
      modifies this
      ensures issues == old(issues) + [Issue(severity, category, check)]
      ensures warnings == old(warnings) && stats == old(stats)
    {
      issues := issues + [Issue(severity, category, check)];
    }

    /** `add_warning` files into the separate `warnings` list, which `is_valid` never reads. */
    method AddWarning(category: Category, check: string)
      modifies this
      ensures warnings == old(warnings) + [Issue(Warning, category, check)]
      ensures issues == old(issues) && stats == old(stats)
    {
      warnings := warnings + [Issue(Warning, category, check)];
    }

    /** `is_valid`: no entry of `issues` has severity "error". */
    predicate IsValid()
      reads this
    {
      NoErrors(issues)
    }

    /** `stats.get("total_turns", 0)`. */
    function TotalTurns(): nat
      reads this
    {
      match stats
      case Some(st) => st.totalTurns
      case None => 0
    }

    function Report(): FileReport
      reads this
    {
      FileReport(filePath, issues, TotalTurns())
    }
  }

  /** The warnings `cross_reference_with_source` returns, one per check that fired. */
  function SourceWarnings(checks: seq<string>): (r: seq<Issue>)
    ensures |r| == |checks| && OnlyWarnings(r)
  {
    seq(|checks|, k requires 0 <= k < |checks| => Issue(Warning, SourceReference, checks[k]))
  }

  /** Every issue `validate_json_file` records for one file. */
  function FileIssues(name: string, content: ReadOutcome, sourceChecks: seq<string>): seq<Issue> {
    match content
    case BadJson => [Issue(Error, JsonSyntax, "json")]
    case Unreadable => [Issue(Error, FileRead, "read")]
    case Parsed(j) =>
      FilenameIssues(j, Stem(name)) + TurnStructureIssues(j.turns) + ContentQualityIssues(j.turns)
      + AlternationIssues(j.turns) + SourceWarnings(sourceChecks)
  }

  function FileStats(content: ReadOutcome): Option<Stats> {
    match content
    case Parsed(j) => Some(Stats(|j.turns|, j.studentId, j.week, j.task, j.dialogueId))
    case _ => None
  }

  /**
   * `validate_json_file`. The outcome of reading the file and the warnings
   * of the source cross-reference are inputs.
   */
  method ValidateJsonFile(name: string, content: ReadOutcome, sourceChecks: seq<string>) returns (result: ValidationResult)
    ensures fresh(result) && result.filePath == name && result.warnings == []
    ensures result.issues == FileIssues(name, content, sourceChecks) && result.stats == FileStats(content)
  {
    result := new ValidationResult(name);
    match content
    case BadJson =>
      result.AddIssue(Error, JsonSyntax, "json");
    case Unreadable =>
      result.AddIssue(Error, FileRead, "read");
    case Parsed(j) =>
      result.stats := Some(Stats(|j.turns|, j.studentId, j.week, j.task, j.dialogueId));
      var found := RunChecks(name, j, sourceChecks);
      result.issues := result.issues + found;
  }

  /** The five `result.issues.extend(...)` calls, in order. */
  method RunChecks(name: string, j: DialogueJson, sourceChecks: seq<string>) returns (issues: seq<Issue>)
    ensures issues == FileIssues(name, Parsed(j), sourceChecks)
  {
    issues := FilenameIssues(j, Stem(name));
    var structure := ValidateTurnStructure(j.turns);
    issues := issues + structure;
    var quality := ValidateContentQuality(j.turns);
    issues := issues + quality;
    var alternation := ValidateSpeakerAlternation(j.turns);
    issues := issues + alternation;
    issues := issues + SourceWarnings(sourceChecks);
  }

  /**
   * A file is valid exactly when it was read and decoded, its name carries the
   * pattern and agrees with all four metadata fields, and its turns are
   * non-empty, numbered as a permutation of 1..n and spoken by `learner` or
   * `bot`; content, alternation and source checks never make a file invalid.
   */
  lemma FileIssuesSpec(name: string, content: ReadOutcome, sourceChecks: seq<string>)
    ensures NoErrors(FileIssues(name, content, sourceChecks)) <==>
      content.Parsed? && FilenameIssues(content.json, Stem(name)) == [] &&
      |content.json.turns| > 0 && NumberedPermutation(content.json.turns) &&
      forall i :: 0 <= i < |content.json.turns| ==> ValidSpeaker(content.json.turns[i].speaker)
  {
    match content
    case BadJson =>
      assert FileIssues(name, content, sourceChecks)[0].severity == Error;
    case Unreadable =>
      assert FileIssues(name, content, sourceChecks)[0].severity == Error;
    case Parsed(j) =>
      var f := FilenameIssues(j, Stem(name));
      var t := TurnStructureIssues(j.turns);
      var c := ContentQualityIssues(j.turns);
      var a := AlternationIssues(j.turns);
      var w := SourceWarnings(sourceChecks);
      assert FileIssues(name, content, sourceChecks) == f + t + c + a + w;
      NoErrorsConcat(f + t + c + a, w);
      NoErrorsConcat(f + t + c, a);
      NoErrorsConcat(f + t, c);
      NoErrorsConcat(f, t);
      TurnStructureErrors(j.turns);
      ContentQualitySpec(j.turns);
      AlternationSpec(j.turns);
      assert NoErrors(f) <==> f == [] by {
        if f != [] {
          assert f[0].severity == Error;
        }
      }
  }

  // ---------------------------------------------------------------------
  // validate_all_files
  // ---------------------------------------------------------------------

  /** One entry of the processed directory: its name, what reading it gives, and its cross-reference warnings. */
  datatype FileEntry = FileEntry(name: string, content: ReadOutcome, sourceChecks: seq<string>)

  /** The glob `S*_W*_T*.json` on a file name. */
  predicate GlobMatch(name: string) {
    |name| >= 5 && name[0] == 'S' && name[|name| - 5..] == ".json" &&
    exists i, j :: 1 <= i && i + 2 <= j && j + 2 <= |name| - 5 && StartsAt(name, i, "_W") && StartsAt(name, j, "_T")
  }

  /** The entries the glob selects, in listing order. */
  function Matching(files: seq<FileEntry>): (r: seq<FileEntry>)
    ensures forall k :: 0 <= k < |r| ==> r[k] in files && GlobMatch(r[k].name)
    ensures forall f :: f in files && GlobMatch(f.name) ==> f in r
    decreases |files|
  {
    if |files| == 0 then []
    else
      var last := files[|files| - 1];
      Matching(files[..|files| - 1]) + (if GlobMatch(last.name) then [last] else [])
  }

  /** The report `validate_json_file` produces for an entry. */
  function EntryReport(f: FileEntry): FileReport {
    FileReport(f.name, FileIssues(f.name, f.content, f.sourceChecks),
      match FileStats(f.content) case Some(st) => st.totalTurns case None => 0)
  }

  function Reports(fs: seq<FileEntry>): (r: seq<FileReport>)
    ensures |r| == |fs| && forall k :: 0 <= k < |fs| ==> r[k] == EntryReport(fs[k])
  {
    seq(|fs|, k requires 0 <= k < |fs| => EntryReport(fs[k]))
  }

  /** `len([i for i in issues if i["severity"] == sev])`. */
  function CountSeverity(issues: seq<Issue>, sev: Severity): nat
    decreases |issues|
  {
    if |issues| == 0 then 0
    else CountSeverity(issues[..|issues| - 1], sev) + (if issues[|issues| - 1].severity == sev then 1 else 0)
  }

  function CountValid(rs: seq<FileReport>): nat
    decreases |rs|
  {
    if |rs| == 0 then 0 else CountValid(rs[..|rs| - 1]) + (if NoErrors(rs[|rs| - 1].issues) then 1 else 0)
  }

  function SumTurns(rs: seq<FileReport>): nat
    decreases |rs|
  {
    if |rs| == 0 then 0 else SumTurns(rs[..|rs| - 1]) + rs[|rs| - 1].totalTurns
  }

  function SumSeverity(rs: seq<FileReport>, sev: Severity): nat
    decreases |rs|
  {
    if |rs| == 0 then 0 else SumSeverity(rs[..|rs| - 1], sev) + CountSeverity(rs[|rs| - 1].issues, sev)
  }

  /**
   * The summary dictionary. With no matching file it has only the three
   * file counts, so the turn, error and warning totals are absent.
   */
  datatype Summary = Summary(
    totalFiles: nat, validFiles: nat, invalidFiles: int,
    totalTurns: Option<nat>, totalErrors: Option<nat>, totalWarnings: Option<nat>)

  function Summarize(rs: seq<FileReport>): Summary {
    if |rs| == 0 then Summary(0, 0, 0, None, None, None)
    else
      var valid := CountValid(rs);
      Summary(|rs|, valid, |rs| - valid, Some(SumTurns(rs)), Some(SumSeverity(rs, Error)), Some(SumSeverity(rs, Warning)))
  }

  lemma {:induction false} CountSeverityZero(issues: seq<Issue>)
    ensures CountSeverity(issues, Error) == 0 <==> NoErrors(issues)
    decreases |issues|
  {
    if |issues| > 0 {
      var init := issues[..|issues| - 1];
      CountSeverityZero(init);
      assert forall k :: 0 <= k < |init| ==> init[k] == issues[k];
    }
  }

  lemma {:induction false} CountValidBounds(rs: seq<FileReport>)
    ensures CountValid(rs) <= |rs|
    ensures CountValid(rs) == |rs| <==> forall k :: 0 <= k < |rs| ==> NoErrors(rs[k].issues)
    ensures SumSeverity(rs, Error) == 0 <==> forall k :: 0 <= k < |rs| ==> NoErrors(rs[k].issues)
    decreases |rs|
  {
    if |rs| > 0 {
      var init := rs[..|rs| - 1];
      CountValidBounds(init);
      CountSeverityZero(rs[|rs| - 1].issues);
      assert forall k :: 0 <= k < |init| ==> init[k] == rs[k];
    }
  }

  /**
   * Valid and invalid files add up to the total, and the error total is zero
   * exactly when no file is invalid.
   */
  lemma SummarySpec(rs: seq<FileReport>)
    ensures var s := Summarize(rs);
      s.totalFiles == |rs| && 0 <= s.invalidFiles && s.validFiles + s.invalidFiles == s.totalFiles
    ensures var s := Summarize(rs);
      s.invalidFiles == 0 <==> forall k :: 0 <= k < |rs| ==> NoErrors(rs[k].issues)
    ensures |rs| > 0 <==> Summarize(rs).totalErrors.Some?
    ensures |rs| > 0 ==> (Summarize(rs).totalErrors == Some(0) <==> Summarize(rs).invalidFiles == 0)
  {
    CountValidBounds(rs);
  }

  /** The `sum(...)` passes over the results. */
  method CountResults(results: seq<ValidationResult>, ghost rs: seq<FileReport>)
    returns (valid: nat, turns: nat, errors: nat, warnings: nat)
    requires ReportsOf(results) == rs
    ensures valid == CountValid(rs) && turns == SumTurns(rs)
    ensures errors == SumSeverity(rs, Error) && warnings == SumSeverity(rs, Warning)
  {
    valid, turns, errors, warnings := 0, 0, 0, 0;
    for i := 0 to |results|
      invariant valid == CountValid(rs[..i]) && turns == SumTurns(rs[..i])
      invariant errors == SumSeverity(rs[..i], Error) && warnings == SumSeverity(rs[..i], Warning)
    {
      assert rs[..i + 1][..i] == rs[..i];
      var r := results[i];
      assert r.Report() == rs[i];
      if r.IsValid() {
        valid := valid + 1;
      }
      turns := turns + r.TotalTurns();
      errors := errors + CountSeverity(r.issues, Error);
      warnings := warnings + CountSeverity(r.issues, Warning);
    }
    assert rs[..|rs|] == rs;
  }

  /** The `for file_path in json_files` loop. */
  method ValidateEach(jsonFiles: seq<FileEntry>) returns (results: seq<ValidationResult>)
    ensures ReportsOf(results) == Reports(jsonFiles)
  {
    results := [];
    for i := 0 to |jsonFiles|
      invariant ReportsOf(results) == Reports(jsonFiles[..i])
    {
      var f := jsonFiles[i];
      var result := ValidateJsonFile(f.name, f.content, f.sourceChecks);
      ReportsSnoc(jsonFiles, i);
      ReportsOfSnoc(results, result);
      results := results + [result];
    }
    assert jsonFiles[..|jsonFiles|] == jsonFiles;
  }

  /** The reports of a list of results, as they stand. */
  function ReportsOf(results: seq<ValidationResult>): (r: seq<FileReport>)
    reads results
    ensures |r| == |results| && forall k :: 0 <= k < |results| ==> r[k] == results[k].Report()
  {
    seq(|results|, k reads results requires 0 <= k < |results| => results[k].Report())
  }

  lemma ReportsOfSnoc(results: seq<ValidationResult>, r: ValidationResult)
    ensures ReportsOf(results + [r]) == ReportsOf(results) + [r.Report()]
  {
  }

  lemma ReportsSnoc(fs: seq<FileEntry>, i: nat)
    requires i < |fs|
    ensures Reports(fs[..i + 1]) == Reports(fs[..i]) + [EntryReport(fs[i])]
  {
  }

  /**
   * `validate_all_files` over a directory listing: validate every file the
   * glob selects, then count.
   */
  method ValidateAllFiles(files: seq<FileEntry>) returns (summary: Summary, results: seq<ValidationResult>)
    ensures ReportsOf(results) == Reports(Matching(files))
    ensures summary == Summarize(Reports(Matching(files)))
  {
    var jsonFiles := Matching(files);
    if |jsonFiles| == 0 {
      return Summary(0, 0, 0, None, None, None), [];
    }
    results := ValidateEach(jsonFiles);
    var valid, turns, errors, warnings := CountResults(results, Reports(jsonFiles));
    summary := Summary(|results|, valid, |results| - valid, Some(turns), Some(errors), Some(warnings));
  }

  // ---------------------------------------------------------------------
  // The pipeline's own output against these checks
  // ---------------------------------------------------------------------

  /** A turn as the pipeline writes it to JSON. */
  function TurnJson(t: Dialogue.Turn): TurnRec {
    TurnRec(Int(t.turn), Str(if t.speaker == Dialogue.Learner then "learner" else "bot"), t.text)
  }

  /** The file the pipeline means to write (`Pipeline.SaveIntended`): the metadata fields beside the turns. */
  function IntendedJson(m: Pipeline.Metadata, turns: seq<Dialogue.Turn>): DialogueJson {
    DialogueJson(Int(m.studentId), Int(m.week), Int(m.task), Str(m.dialogueId),
      seq(|turns|, k requires 0 <= k < |turns| => TurnJson(turns[k])))
  }

  predicate NoDot(s: string) {
    forall k :: 0 <= k < |s| ==> s[k] != '.'
  }

  lemma NoDotConcat(a: string, b: string)
    requires NoDot(a) && NoDot(b)
    ensures NoDot(a + b)
  {
    assert forall k :: |a| <= k < |a + b| ==> (a + b)[k] == b[k - |a|];
  }

  /** A name without dots keeps all of itself as the stem of `name + ".json"`. */
  lemma StemJson(id: string)
    requires |id| > 0 && NoDot(id)
    ensures Stem(id + ".json") == id && Discovery.Suffix(id + ".json") == ".json"
  {
    var name := id + ".json";
    var n := |id|;
    assert name[n] == '.' && name[n + 1] == 'j' && name[n + 2] == 's' && name[n + 3] == 'o' && name[n + 4] == 'n';
    assert Discovery.LastDot(name, n + 5) == Discovery.LastDot(name, n + 4);
    assert Discovery.LastDot(name, n + 4) == Discovery.LastDot(name, n + 3);
    assert Discovery.LastDot(name, n + 3) == Discovery.LastDot(name, n + 2);
    assert Discovery.LastDot(name, n + 2) == Discovery.LastDot(name, n + 1);
    assert Discovery.LastDot(name, n + 1) == Some(n);
    assert name[..n] == id;
  }

  /** The dialogue id of a record with numeric ids has no dot and reads back through the filename pattern. */
  lemma DialogueIdMatches(student: string, week: string, taskIdx: nat)
    requires Pipeline.DigitString(student) && Pipeline.DigitString(week)
    ensures var id := Pipeline.DialogueId(student, week, taskIdx);
      NoDot(id) && Stem(id + ".json") == id &&
      MatchStem(id) == Some((student, week, NatToString(taskIdx))) && id == IdText(student, week, NatToString(taskIdx))
  {
    var t := NatToString(taskIdx);
    var id := Pipeline.DialogueId(student, week, taskIdx);
    assert id == IdText(student, week, t) + [];
    MatchStemComposed(student, week, t, []);
    NoDotConcat("S", student);
    NoDotConcat("S" + student, "_W");
    NoDotConcat("S" + student + "_W", week);
    NoDotConcat("S" + student + "_W" + week, "_T");
    NoDotConcat("S" + student + "_W" + week + "_T", t);
    StemJson(id);
  }

  /** The pipeline's output file names are selected by the glob. */
  lemma DialogueIdGlob(student: string, week: string, taskIdx: nat)
    requires Pipeline.DigitString(student) && Pipeline.DigitString(week)
    ensures GlobMatch(Pipeline.DialogueId(student, week, taskIdx) + ".json")
  {
    var t := NatToString(taskIdx);
    var name := Pipeline.DialogueId(student, week, taskIdx) + ".json";
    var i := 1 + |student|;
    var j := i + 2 + |week|;
    assert name == "S" + student + "_W" + week + "_T" + t + ".json";
    assert name[i..i + 2] == "_W";
    assert name[j..j + 2] == "_T";
    assert name[|name| - 5..] == ".json";
    assert StartsAt(name, i, "_W") && StartsAt(name, j, "_T");
  }

  /** The metadata the pipeline writes agrees with its own output name. */
  lemma IntendedNameAgrees(rec: Discovery.DocumentRecord, taskIdx: nat, taskLabel: string, turns: seq<Dialogue.Turn>)
    requires Pipeline.DigitString(rec.student) && Pipeline.DigitString(rec.week)
    ensures var m := Pipeline.FormatDialogueMetadata(rec, taskIdx, taskLabel);
      FilenameIssues(IntendedJson(m, turns), Stem(m.dialogueId + ".json")) == []
  {
    var m := Pipeline.FormatDialogueMetadata(rec, taskIdx, taskLabel);
    DialogueIdMatches(rec.student, rec.week, taskIdx);
    assert ParseNat(NatToString(taskIdx)) == taskIdx;
    assert Discovery.IdValue(rec.student) == ParseNat(rec.student);
    assert Discovery.IdValue(rec.week) == ParseNat(rec.week);
  }

  /** Turns numbered 1..n, written as JSON, pass the numbering and speaker checks. */
  lemma IntendedTurnsPass(turns: seq<Dialogue.Turn>, m: Pipeline.Metadata)
    requires Dialogue.NumberedFromOne(turns)
    ensures var ts := IntendedJson(m, turns).turns;
      NumberedPermutation(ts) && forall i :: 0 <= i < |ts| ==> ValidSpeaker(ts[i].speaker)
  {
    var ts := IntendedJson(m, turns).turns;
    assert forall i :: 0 <= i < |ts| ==> ts[i].turn == Int(i + 1);
  }

  /**
   * A non-empty dialogue the pipeline saves as intended, numbered 1..n, under
   * its own output name, is selected by the glob and raises no error: only
   * warnings can remain.
   */
  lemma PipelineOutputValid(rec: Discovery.DocumentRecord, taskIdx: nat, taskLabel: string,
                            turns: seq<Dialogue.Turn>, sourceChecks: seq<string>)
    requires Pipeline.DigitString(rec.student) && Pipeline.DigitString(rec.week)
    requires |turns| > 0 && Dialogue.NumberedFromOne(turns)
    ensures var m := Pipeline.FormatDialogueMetadata(rec, taskIdx, taskLabel);
      GlobMatch(m.dialogueId + ".json") &&
      NoErrors(FileIssues(m.dialogueId + ".json", Parsed(IntendedJson(m, turns)), sourceChecks))
  {
    var m := Pipeline.FormatDialogueMetadata(rec, taskIdx, taskLabel);
    DialogueIdGlob(rec.student, rec.week, taskIdx);
    IntendedNameAgrees(rec, taskIdx, taskLabel, turns);
    IntendedTurnsPass(turns, m);
    FileIssuesSpec(m.dialogueId + ".json", Parsed(IntendedJson(m, turns)), sourceChecks);
  }
}
