/**
 * `scripts/validate_repair_results.py`: checking each dialogue's repair
 * annotations against the annotation schema and against the dialogue's own
 * turns, and tallying the verdicts over all dialogues.
 */
module ValidateRepairResults {
  import opened Wrappers
  import opened Repairs
  import opened Text
  import RepairDetector

  // ---------------------------------------------------------------------
  // validate_repair_structure
  // ---------------------------------------------------------------------

  datatype StructIssue =
    | MissingField(name: string)
    | RepairIdMismatch
    | DialogueIdMismatch
    | InvalidInitiation
    | InvalidResolution
    | IndicesNotList
    | IndicesEmpty
    | IndicesNotInts
    | TriggerNotString
    | EvidenceNotString

  /** One `Missing required field` issue per name of `names` that `r` lacks, in order. */
  function MissingIssues(r: Fields, names: seq<string>): seq<StructIssue>
    decreases |names|
  {
    if |names| == 0 then []
    else
      MissingIssues(r, names[..|names| - 1])
      + (if names[|names| - 1] in r then [] else [MissingField(names[|names| - 1])])
  }

  /** The issue the three-way `turn_indices` test reports, if any. */
  function IndicesIssue(v: JVal): seq<StructIssue> {
    if !v.JList? then [IndicesNotList]
    else if v.items == [] then [IndicesEmpty]
    else if !IsIntList(v) then [IndicesNotInts]
    else []
  }

  function IdIssue(r: Fields, repairId: int): seq<StructIssue> {
    if "repair_id" in r && r["repair_id"] != JInt(repairId) then [RepairIdMismatch] else []
  }

  function DialogueIdIssue(r: Fields, dialogueId: JVal): seq<StructIssue> {
    if "dialogue_id" in r && r["dialogue_id"] != dialogueId then [DialogueIdMismatch] else []
  }

  function LabelIssues(r: Fields): seq<StructIssue> {
    (if "initiation" in r && !RepairDetector.ValidInitiation(r["initiation"]) then [InvalidInitiation] else [])
    + (if "resolution" in r && !RepairDetector.ValidResolution(r["resolution"]) then [InvalidResolution] else [])
  }

  function TextIssues(r: Fields): seq<StructIssue> {
    (if "trigger" in r && !r["trigger"].JStr? then [TriggerNotString] else [])
    + (if "evidence_summary" in r && !r["evidence_summary"].JStr? then [EvidenceNotString] else [])
  }

  function IndicesIssues(r: Fields): seq<StructIssue> {
    if "turn_indices" in r then IndicesIssue(r["turn_indices"]) else []
  }

  /** The issues after the missing-field loop, in order. */
  function FieldIssues(r: Fields, repairId: int, dialogueId: JVal): seq<StructIssue> {
    IdIssue(r, repairId) + DialogueIdIssue(r, dialogueId) + LabelIssues(r) + IndicesIssues(r) + TextIssues(r)
  }

  /** The issues `validate_repair_structure(repair, repair_id, dialogue_id)` returns, in order. */
  function StructureIssues(r: Fields, repairId: int, dialogueId: JVal): seq<StructIssue> {
    MissingIssues(r, RequiredFields) + FieldIssues(r, repairId, dialogueId)
  }

  /**
   * A well-formed annotation, stated field by field: every required field
   * present, `repair_id` equal to its 1-based position, `dialogue_id` equal
   * to the dialogue's when it is present, both labels in their enums, a
   * non-empty list of integer turn indices, and text trigger and evidence.
   */
  predicate WellFormed(r: Fields, repairId: int, dialogueId: JVal) {
    RepairDetector.HasRequired(r)
    && r["repair_id"] == JInt(repairId)
    && ("dialogue_id" in r ==> r["dialogue_id"] == dialogueId)
    && RepairDetector.ValidInitiation(r["initiation"])
    && RepairDetector.ValidResolution(r["resolution"])
    && IsIntList(r["turn_indices"]) && r["turn_indices"].items != []
    && r["trigger"].JStr? && r["evidence_summary"].JStr?
  }

  lemma MissingIssuesSpec(r: Fields, names: seq<string>)
    ensures MissingIssues(r, names) == [] <==> forall k :: 0 <= k < |names| ==> names[k] in r
    ensures forall f :: MissingField(f) in MissingIssues(r, names) <==> f in names && f !in r
    ensures forall e :: e in MissingIssues(r, names) ==> e.MissingField?
  {
    NoneMissingIff(r, names);
    MissingNamed(r, names);
    OnlyMissing(r, names);
  }

  lemma {:induction false} NoneMissingIff(r: Fields, names: seq<string>)
    ensures MissingIssues(r, names) == [] <==> forall k :: 0 <= k < |names| ==> names[k] in r
    decreases |names|
  {
    if |names| > 0 {
      var p := names[..|names| - 1];
      NoneMissingIff(r, p);
      assert forall k :: 0 <= k < |p| ==> p[k] == names[k];
    }
  }

  lemma {:induction false} MissingNamed(r: Fields, names: seq<string>)
    ensures forall f :: MissingField(f) in MissingIssues(r, names) <==> f in names && f !in r
    decreases |names|
  {
    if |names| > 0 {
      var p := names[..|names| - 1];
      MissingNamed(r, p);
      assert names == p + [names[|names| - 1]];
    }
  }

  lemma {:induction false} OnlyMissing(r: Fields, names: seq<string>)
    ensures forall e :: e in MissingIssues(r, names) ==> e.MissingField?
    decreases |names|
  {
    if |names| > 0 {
      OnlyMissing(r, names[..|names| - 1]);
    }
  }

  /** Each present field has an acceptable value, stated field by field. */
  predicate FieldsAcceptable(r: Fields, repairId: int, dialogueId: JVal) {
    ("repair_id" in r ==> r["repair_id"] == JInt(repairId))
    && ("dialogue_id" in r ==> r["dialogue_id"] == dialogueId)
    && ("initiation" in r ==> RepairDetector.ValidInitiation(r["initiation"]))
    && ("resolution" in r ==> RepairDetector.ValidResolution(r["resolution"]))
    && ("turn_indices" in r ==> IsIntList(r["turn_indices"]) && r["turn_indices"].items != [])
    && ("trigger" in r ==> r["trigger"].JStr?)
    && ("evidence_summary" in r ==> r["evidence_summary"].JStr?)
  }

  /** The checks after the missing-field loop pass exactly when every present field is acceptable. */
  lemma FieldIssuesSpec(r: Fields, repairId: int, dialogueId: JVal)
    ensures FieldIssues(r, repairId, dialogueId) == [] <==> FieldsAcceptable(r, repairId, dialogueId)
    ensures forall e :: e in FieldIssues(r, repairId, dialogueId) ==> !e.MissingField?
  {
  }

  lemma RequiredFieldsListed(r: Fields)
    ensures (forall k :: 0 <= k < |RequiredFields| ==> RequiredFields[k] in r) <==> RepairDetector.HasRequired(r)
  {
    var rf := RequiredFields;
    assert rf[0] == "repair_id" && rf[1] == "turn_indices" && rf[2] == "initiation";
    assert rf[3] == "resolution" && rf[4] == "trigger" && rf[5] == "evidence_summary";
  }

  /**
   * No issue exactly when the annotation is well-formed; each required
   * field that is absent is reported once by name, and nothing else is
   * reported as missing.
   */
  lemma StructureSpec(r: Fields, repairId: int, dialogueId: JVal)
    ensures StructureIssues(r, repairId, dialogueId) == [] <==> WellFormed(r, repairId, dialogueId)
    ensures forall f :: MissingField(f) in StructureIssues(r, repairId, dialogueId) <==> f in RequiredFields && f !in r
  {
    MissingIssuesSpec(r, RequiredFields);
    FieldIssuesSpec(r, repairId, dialogueId);
    RequiredFieldsListed(r);
    var m := MissingIssues(r, RequiredFields);
    var f := FieldIssues(r, repairId, dialogueId);
    assert forall e :: e in m + f <==> e in m || e in f;
  }

  /** A well-formed annotation is also accepted by the detector's own schema check. */
  lemma WellFormedAccepted(r: Fields, repairId: int, dialogueId: JVal)
    requires StructureIssues(r, repairId, dialogueId) == []
    ensures RepairDetector.AnnotationValid(r)
  {
    StructureSpec(r, repairId, dialogueId);
  }

  /** The missing-field loop. */
  method MissingFieldIssues(r: Fields) returns (issues: seq<StructIssue>)
    ensures issues == MissingIssues(r, RequiredFields)
  {
    issues := [];
    for k := 0 to |RequiredFields|
      invariant issues == MissingIssues(r, RequiredFields[..k])
    {
      assert RequiredFields[..k + 1][..k] == RequiredFields[..k];
      if RequiredFields[k] !in r {
        issues := issues + [MissingField(RequiredFields[k])];
      }
    }
    assert RequiredFields[..|RequiredFields|] == RequiredFields;
  }

  /** The `repair_id` and `dialogue_id` comparisons, appending to `issues`. */
  method CheckIds(r: Fields, repairId: int, dialogueId: JVal, issues: seq<StructIssue>) returns (out: seq<StructIssue>)
    ensures out == issues + IdIssue(r, repairId) + DialogueIdIssue(r, dialogueId)
  {
    out := issues;
    if "repair_id" in r && r["repair_id"] != JInt(repairId) {
      out := out + [RepairIdMismatch];
    }
    assert out == issues + IdIssue(r, repairId);
    if "dialogue_id" in r && r["dialogue_id"] != dialogueId {
      out := out + [DialogueIdMismatch];
    }
  }

  /** The two enum tests, appending to `issues`. */
  method CheckLabels(r: Fields, issues: seq<StructIssue>) returns (out: seq<StructIssue>)
    ensures out == issues + LabelIssues(r)
  {
    out := issues;
    if "initiation" in r && !RepairDetector.ValidInitiation(r["initiation"]) {
      out := out + [InvalidInitiation];
    }
    if "resolution" in r && !RepairDetector.ValidResolution(r["resolution"]) {
      out := out + [InvalidResolution];
    }
  }

  /** The two type tests on the texts, appending to `issues`. */
  method CheckTexts(r: Fields, issues: seq<StructIssue>) returns (out: seq<StructIssue>)
    ensures out == issues + TextIssues(r)
  {
    out := issues;
    if "trigger" in r && !r["trigger"].JStr? {
      out := out + [TriggerNotString];
    }
    if "evidence_summary" in r && !r["evidence_summary"].JStr? {
      out := out + [EvidenceNotString];
    }
  }

  /** `validate_repair_structure`. */
  method ValidateRepairStructure(r: Fields, repairId: int, dialogueId: JVal) returns (issues: seq<StructIssue>)
    ensures issues == StructureIssues(r, repairId, dialogueId)
  {
    issues := MissingFieldIssues(r);
    ghost var a := issues;
    issues := CheckIds(r, repairId, dialogueId, issues);
    issues := CheckLabels(r, issues);
    if "turn_indices" in r {
      issues := issues + IndicesIssue(r["turn_indices"]);
    }
    assert issues == a + IdIssue(r, repairId) + DialogueIdIssue(r, dialogueId) + LabelIssues(r) + IndicesIssues(r);
    issues := CheckTexts(r, issues);
    ghost var b, c, d := IdIssue(r, repairId), DialogueIdIssue(r, dialogueId), LabelIssues(r);
    ghost var e, f := IndicesIssues(r), TextIssues(r);
    ConcatAssoc(a, b, c);
    ConcatAssoc(a, b + c, d);
    ConcatAssoc(a, b + c + d, e);
    ConcatAssoc(a, b + c + d + e, f);
  }

  // ---------------------------------------------------------------------
  // validate_repair_against_dialogue
  // ---------------------------------------------------------------------

  datatype DialogueIssue =
    | BelowOne(idx: int)
    | ExceedsMax(idx: int, maxTurn: int)
    | NoSuchTurn(idx: int)
    | Duplicates
    | NotInOrder
    | SpanTooLarge(span: int)

  function SetOf(xs: seq<int>): set<int> {
    set x | x in xs
  }

  predicate NoDuplicates(xs: seq<int>) {
    forall i, j :: 0 <= i < j < |xs| ==> xs[i] != xs[j]
  }

  /** `xs == sorted(xs)`. */
  predicate NonDecreasing(xs: seq<int>) {
    forall i, j :: 0 <= i < j < |xs| ==> xs[i] <= xs[j]
  }

  predicate StrictlyIncreasing(xs: seq<int>) {
    forall i, j :: 0 <= i < j < |xs| ==> xs[i] < xs[j]
  }

  function SeqMin(xs: seq<int>): (m: int)
    requires |xs| > 0
    ensures (exists k :: 0 <= k < |xs| && xs[k] == m) && forall k :: 0 <= k < |xs| ==> m <= xs[k]
    decreases |xs|
  {
    if |xs| == 1 then xs[0]
    else
      var m := SeqMin(xs[..|xs| - 1]);
      if xs[|xs| - 1] < m then xs[|xs| - 1] else m
  }

  function SeqMax(xs: seq<int>): (m: int)
    requires |xs| > 0
    ensures (exists k :: 0 <= k < |xs| && xs[k] == m) && forall k :: 0 <= k < |xs| ==> xs[k] <= m
    decreases |xs|
  {
    if |xs| == 1 then xs[0]
    else
      var m := SeqMax(xs[..|xs| - 1]);
      if xs[|xs| - 1] > m then xs[|xs| - 1] else m
  }

  /**
   * The pigeonhole fact behind the duplicate test: the set of the indices
   * is never larger than the list, and it is exactly as large when no index
   * repeats.
   */
  lemma {:induction false} SetOfCard(xs: seq<int>)
    ensures |SetOf(xs)| <= |xs|
    ensures |SetOf(xs)| == |xs| <==> NoDuplicates(xs)
    decreases |xs|
  {
    if |xs| > 0 {
      var p := xs[..|xs| - 1];
      var x := xs[|xs| - 1];
      SetOfCard(p);
      assert xs == p + [x];
      SnocFacts(p, x);
      if x in SetOf(p) {
        assert SetOf(xs) == SetOf(p);
      } else {
        assert |SetOf(xs)| == |SetOf(p)| + 1;
      }
    }
  }

  /** Appending `x` adds it to the set, and keeps the list free of duplicates exactly when `x` is new. */
  lemma SnocFacts(p: seq<int>, x: int)
    ensures SetOf(p + [x]) == SetOf(p) + {x}
    ensures NoDuplicates(p + [x]) <==> NoDuplicates(p) && x !in SetOf(p)
  {
    var xs := p + [x];
    if x in SetOf(p) {
      var i :| 0 <= i < |p| && p[i] == x;
      assert xs[i] == xs[|p|];
    }
    if NoDuplicates(xs) {
      forall i, j | 0 <= i < j < |p| ensures p[i] != p[j] {
        assert xs[i] == p[i] && xs[j] == p[j];
      }
    }
  }

  /** The issues for one index: out of range, then absent from the dialogue. */
  function IndexIssues(idx: int, turns: seq<DTurn>): seq<DialogueIssue> {
    (if idx < 1 then [BelowOne(idx)] else if idx > MaxTurn(turns) then [ExceedsMax(idx, MaxTurn(turns))] else [])
    + (if TurnExists(turns, idx) then [] else [NoSuchTurn(idx)])
  }

  function PerIndexIssues(xs: seq<int>, turns: seq<DTurn>): seq<DialogueIssue>
    decreases |xs|
  {
    if |xs| == 0 then [] else PerIndexIssues(xs[..|xs| - 1], turns) + IndexIssues(xs[|xs| - 1], turns)
  }

  /** The checks after the loop: duplicates, order, and a span of more than 20 turns. */
  function ListIssues(xs: seq<int>): seq<DialogueIssue> {
    (if |xs| != |SetOf(xs)| then [Duplicates] else [])
    + (if !NonDecreasing(xs) then [NotInOrder] else [])
    + (if |xs| > 0 && SeqMax(xs) - SeqMin(xs) > 20 then [SpanTooLarge(SeqMax(xs) - SeqMin(xs) + 1)] else [])
  }

  /**
   * `validate_repair_against_dialogue`, or the `TypeError` it raises on
   * turn indices it cannot compare. An empty string or object in place of
   * the list is never equal to `sorted` of itself, so it is reported as out
   * of order.
   */
  function AgainstDialogue(r: Fields, turns: seq<DTurn>): Result<seq<DialogueIssue>, Exception> {
    if "turn_indices" in r && EmptyNonList(r["turn_indices"]) then Ok([NotInOrder])
    else
      match IndicesOf(r)
      case Err(e) => Err(e)
      case Ok(xs) => Ok(DialogueIssues(xs, turns))
  }

  /** Everything reported about a list of integer indices: each index in turn, then the list as a whole. */
  function DialogueIssues(xs: seq<int>, turns: seq<DTurn>): seq<DialogueIssue> {
    PerIndexIssues(xs, turns) + ListIssues(xs)
  }

  /** Every index names an existing turn, at least 1, and the list strictly increases over at most 21 turns. */
  predicate IndicesSound(xs: seq<int>, turns: seq<DTurn>) {
    (forall k :: 0 <= k < |xs| ==> 1 <= xs[k] && TurnExists(turns, xs[k]))
    && StrictlyIncreasing(xs)
    && (|xs| > 0 ==> SeqMax(xs) - SeqMin(xs) <= 20)
  }

  lemma IndexIssuesSpec(idx: int, turns: seq<DTurn>)
    ensures IndexIssues(idx, turns) == [] <==> 1 <= idx && TurnExists(turns, idx)
    ensures forall i :: NoSuchTurn(i) in IndexIssues(idx, turns) <==> i == idx && !TurnExists(turns, idx)
  {
    if TurnExists(turns, idx) {
      var k :| 0 <= k < |turns| && turns[k].turn == Some(idx);
      assert turns[k].turn.GetOr(0) == idx;
    }
  }

  lemma {:induction false} PerIndexIssuesSpec(xs: seq<int>, turns: seq<DTurn>)
    ensures PerIndexIssues(xs, turns) == [] <==> forall k :: 0 <= k < |xs| ==> 1 <= xs[k] && TurnExists(turns, xs[k])
    ensures forall idx :: NoSuchTurn(idx) in PerIndexIssues(xs, turns) <==> idx in xs && !TurnExists(turns, idx)
  {
    PerIndexEmpty(xs, turns);
    PerIndexAbsent(xs, turns);
  }

  lemma {:induction false} PerIndexEmpty(xs: seq<int>, turns: seq<DTurn>)
    ensures PerIndexIssues(xs, turns) == [] <==> SoundIndices(xs, turns)
    decreases |xs|
  {
    if |xs| > 0 {
      PerIndexEmpty(xs[..|xs| - 1], turns);
      IndexIssuesSpec(xs[|xs| - 1], turns);
      SoundSnoc(xs, turns);
    }
  }

  /** Every index is a turn number of at least 1. */
  predicate SoundIndices(xs: seq<int>, turns: seq<DTurn>) {
    forall k :: 0 <= k < |xs| ==> 1 <= xs[k] && TurnExists(turns, xs[k])
  }

  lemma SoundSnoc(xs: seq<int>, turns: seq<DTurn>)
    requires |xs| > 0
    ensures SoundIndices(xs, turns) <==>
      SoundIndices(xs[..|xs| - 1], turns) && 1 <= xs[|xs| - 1] && TurnExists(turns, xs[|xs| - 1])
  {
    var p := xs[..|xs| - 1];
    assert forall k :: 0 <= k < |p| ==> p[k] == xs[k];
  }

  lemma {:induction false} PerIndexAbsent(xs: seq<int>, turns: seq<DTurn>)
    ensures forall idx :: NoSuchTurn(idx) in PerIndexIssues(xs, turns) <==> idx in xs && !TurnExists(turns, idx)
    decreases |xs|
  {
    if |xs| > 0 {
      var p := xs[..|xs| - 1];
      var x := xs[|xs| - 1];
      PerIndexAbsent(p, turns);
      IndexIssuesSpec(x, turns);
      assert xs == p + [x];
      var a := PerIndexIssues(p, turns);
      var b := IndexIssues(x, turns);
      assert forall e :: e in a + b <==> e in a || e in b;
    }
  }

  lemma IncreasingIff(xs: seq<int>)
    ensures StrictlyIncreasing(xs) <==> NoDuplicates(xs) && NonDecreasing(xs)
  {
  }

  /** The three list checks pass exactly when the indices strictly increase over at most 21 turns. */
  lemma ListIssuesSpec(xs: seq<int>)
    ensures ListIssues(xs) == [] <==>
      StrictlyIncreasing(xs) && (|xs| > 0 ==> SeqMax(xs) - SeqMin(xs) <= 20)
  {
    SetOfCard(xs);
    IncreasingIff(xs);
  }

  /**
   * No issue exactly when the indices are sound, and every index that is
   * not a turn number is reported as non-existent whatever its range.
   */
  lemma DialogueIssuesSpec(xs: seq<int>, turns: seq<DTurn>)
    ensures DialogueIssues(xs, turns) == [] <==> IndicesSound(xs, turns)
    ensures forall idx :: NoSuchTurn(idx) in DialogueIssues(xs, turns) <==> idx in xs && !TurnExists(turns, idx)
  {
    PerIndexIssuesSpec(xs, turns);
    ListIssuesSpec(xs);
    var a := PerIndexIssues(xs, turns);
    var b := ListIssues(xs);
    assert forall e :: e in b ==> !e.NoSuchTurn?;
    assert forall e :: e in a + b <==> e in a || e in b;
  }

  /**
   * The call raises exactly when the indices are neither a list of integers
   * nor an empty non-list; otherwise it reports the issues of the list.
   */
  lemma AgainstDialogueSpec(r: Fields, turns: seq<DTurn>)
    ensures AgainstDialogue(r, turns).Err? <==> IndicesOf(r).Err?
    ensures "turn_indices" in r && EmptyNonList(r["turn_indices"]) ==> AgainstDialogue(r, turns) == Ok([NotInOrder])
    ensures IndicesOf(r).Ok? && !("turn_indices" in r && EmptyNonList(r["turn_indices"])) ==>
      (AgainstDialogue(r, turns).value == [] <==> IndicesSound(IndicesOf(r).value, turns))
    ensures IndicesOf(r).Ok? && !("turn_indices" in r && EmptyNonList(r["turn_indices"])) ==>
      forall idx :: NoSuchTurn(idx) in AgainstDialogue(r, turns).value <==>
        idx in IndicesOf(r).value && !TurnExists(turns, idx)
  {
    if IndicesOf(r).Ok? && !("turn_indices" in r && EmptyNonList(r["turn_indices"])) {
      DialogueIssuesSpec(IndicesOf(r).value, turns);
    }
  }

  /** The per-index loop. */
  method CheckIndices(xs: seq<int>, turns: seq<DTurn>) returns (issues: seq<DialogueIssue>)
    ensures issues == PerIndexIssues(xs, turns)
  {
    var maxTurn := MaxTurn(turns);
    issues := [];
    for k := 0 to |xs|
      invariant issues == PerIndexIssues(xs[..k], turns)
    {
      assert xs[..k + 1][..k] == xs[..k];
      var idx := xs[k];
      if idx < 1 {
        issues := issues + [BelowOne(idx)];
      } else if idx > maxTurn {
        issues := issues + [ExceedsMax(idx, maxTurn)];
      }
      var exists_ := false;
      for t := 0 to |turns|
        invariant exists_ <==> exists j :: 0 <= j < t && turns[j].turn == Some(idx)
      {
        if turns[t].turn == Some(idx) {
          exists_ := true;
        }
      }
      if !exists_ {
        issues := issues + [NoSuchTurn(idx)];
      }
    }
    assert xs[..|xs|] == xs;
  }

  /** `validate_repair_against_dialogue`. */
  method ValidateRepairAgainstDialogue(r: Fields, turns: seq<DTurn>) returns (res: Result<seq<DialogueIssue>, Exception>)
    ensures res == AgainstDialogue(r, turns)
  {
    if "turn_indices" in r && EmptyNonList(r["turn_indices"]) {
      return Ok([NotInOrder]);
    }
    var indices := IndicesOf(r);
    if indices.Err? {
      return Err(indices.error);
    }
    var xs := indices.value;
    var issues := CheckIndices(xs, turns);
    ghost var perIndex := issues;
    if |xs| != |SetOf(xs)| {
      issues := issues + [Duplicates];
    }
    if !NonDecreasing(xs) {
      issues := issues + [NotInOrder];
    }
    if |xs| > 0 {
      var lo := SeqMin(xs);
      var hi := SeqMax(xs);
      if hi - lo > 20 {
        issues := issues + [SpanTooLarge(hi - lo + 1)];
      }
    }
    assert issues == DialogueIssues(xs, turns);
    return Ok(issues);
  }

  // ---------------------------------------------------------------------
  // check_repair_overlap
  // ---------------------------------------------------------------------

  predicate Overlaps(a: seq<int>, b: seq<int>) {
    exists x :: x in a && x in b
  }

  /** The set intersection the loop tests is non-empty exactly when some index occurs in both lists. */
  lemma IntersectionIff(a: seq<int>, b: seq<int>)
    ensures SetOf(a) * SetOf(b) != {} <==> Overlaps(a, b)
  {
    if Overlaps(a, b) {
      var x :| x in a && x in b;
      assert x in SetOf(a) * SetOf(b);
    }
    if !Overlaps(a, b) {
      assert forall x :: x !in SetOf(a) * SetOf(b);
    }
  }

  /** The pairs `(i, j)` for one `i` and every `j` with `i < j < bound`, in order. */
  function RowPairs(lists: seq<seq<int>>, i: nat, bound: nat): seq<(nat, nat)>
    requires i < |lists| && bound <= |lists|
    decreases bound
  {
    if bound <= i + 1 then []
    else RowPairs(lists, i, bound - 1) + (if Overlaps(lists[i], lists[bound - 1]) then [(i, bound - 1)] else [])
  }

  /** The pairs of the rows `i < n`, in order. */
  function PairsUpTo(lists: seq<seq<int>>, n: nat): seq<(nat, nat)>
    requires n <= |lists|
    decreases n
  {
    if n == 0 then [] else PairsUpTo(lists, n - 1) + RowPairs(lists, n - 1, |lists|)
  }

  /** The overlapping pairs `check_repair_overlap` reports, one message each, in loop order. */
  function OverlapPairs(lists: seq<seq<int>>): seq<(nat, nat)> {
    PairsUpTo(lists, |lists|)
  }

  lemma {:induction false} RowPairsSpec(lists: seq<seq<int>>, i: nat, bound: nat)
    requires i < |lists| && bound <= |lists|
    ensures forall p :: p in RowPairs(lists, i, bound) <==> p.0 == i && i < p.1 < bound && Overlaps(lists[i], lists[p.1])
    decreases bound
  {
    if bound > i + 1 {
      RowPairsSpec(lists, i, bound - 1);
    }
  }

  lemma {:induction false} PairsUpToSpec(lists: seq<seq<int>>, n: nat)
    requires n <= |lists|
    ensures forall p :: p in PairsUpTo(lists, n) <==> p.0 < n && p.0 < p.1 < |lists| && Overlaps(lists[p.0], lists[p.1])
    decreases n
  {
    if n > 0 {
      RowPairsSpec(lists, n - 1, |lists|);
      PairsUpToSpec(lists, n - 1);
    }
  }

  /**
   * A pair is reported exactly when it is `i < j` and the two index sets
   * meet, so nothing is reported exactly when the sets are pairwise
   * disjoint.
   */
  lemma OverlapSpec(lists: seq<seq<int>>)
    ensures forall p :: p in OverlapPairs(lists) <==> p.0 < p.1 < |lists| && Overlaps(lists[p.0], lists[p.1])
    ensures OverlapPairs(lists) == [] <==>
      forall i, j :: 0 <= i < j < |lists| ==> !Overlaps(lists[i], lists[j])
  {
    PairsUpToSpec(lists, |lists|);
    if OverlapPairs(lists) != [] {
      var p := OverlapPairs(lists)[0];
      assert p in OverlapPairs(lists);
    }
    if exists i, j :: 0 <= i < j < |lists| && Overlaps(lists[i], lists[j]) {
      var i, j :| 0 <= i < j < |lists| && Overlaps(lists[i], lists[j]);
      assert (i as nat, j as nat) in OverlapPairs(lists);
    }
  }

  /** `check_repair_overlap` over the repairs' turn-index lists, reporting positions. */
  method CheckRepairOverlap(lists: seq<seq<int>>) returns (pairs: seq<(nat, nat)>)
    ensures pairs == OverlapPairs(lists)
  {
    pairs := [];
    for i := 0 to |lists|
      invariant pairs == PairsUpTo(lists, i)
    {
      var indices1 := SetOf(lists[i]);
      ghost var before := pairs;
      for j := i + 1 to |lists|
        invariant pairs == before + RowPairs(lists, i, j)
      {
        var overlap := indices1 * SetOf(lists[j]);
        IntersectionIff(lists[i], lists[j]);
        if overlap != {} {
          ConcatAssoc(before, RowPairs(lists, i, j), [(i, j)]);
          pairs := pairs + [(i, j)];
        } else {
          assert RowPairs(lists, i, j + 1) == RowPairs(lists, i, j) + [];
        }
      }
    }
  }

  // ---------------------------------------------------------------------
  // validate_dialogue_file
  // ---------------------------------------------------------------------

  /** The parts of a loaded dialogue file the check reads. */
  datatype DialogueData = DialogueData(dialogueId: Option<JVal>, turns: seq<DTurn>)

  datatype RepairProblem = Structure(s: StructIssue) | AgainstTurns(d: DialogueIssue)

  datatype FileIssue =
    | NoRepairFile
    | RepairIssue(repair: nat, problem: RepairProblem)
    | ProcessingError(e: Exception)

  datatype FileWarning =
    | EmptyRepairFile
    | Overlap(first: nat, second: nat)
    | IdsNotSequential
    | NotSortedByFirstTurn

  /** The `result` dict. */
  datatype FileResult = FileResult(
    repairFileExists: bool,
    hasRepairs: bool,
    repairCount: nat,
    issues: seq<FileIssue>,
    warnings: seq<FileWarning>,
    repairsValid: bool)

  function Tagged(n: nat, ps: seq<RepairProblem>): (r: seq<FileIssue>)
    ensures |r| == |ps| && forall k :: 0 <= k < |ps| ==> r[k] == RepairIssue(n, ps[k])
  {
    seq(|ps|, k requires 0 <= k < |ps| => RepairIssue(n, ps[k]))
  }

  function AsStructure(xs: seq<StructIssue>): (r: seq<RepairProblem>)
    ensures |r| == |xs|
  {
    seq(|xs|, k requires 0 <= k < |xs| => Structure(xs[k]))
  }

  function AsAgainst(xs: seq<DialogueIssue>): (r: seq<RepairProblem>)
    ensures |r| == |xs|
  {
    seq(|xs|, k requires 0 <= k < |xs| => AgainstTurns(xs[k]))
  }

  /** The keys `validate_repair_structure` reads with `repair[key]` once `key in repair` holds, in order. */
  const LookedUpKeys: seq<string> :=
    ["repair_id", "dialogue_id", "initiation", "resolution", "turn_indices", "trigger", "evidence_summary"]

  /** Python's `key in v` for a string (a substring) or a list (an element). */
  predicate KeyIn(key: string, v: JVal)
    requires v.JStr? || v.JList?
  {
    if v.JStr? then Contains(v.s, key) else JStr(key) in v.items
  }

  /**
   * What `validate_repair_structure` and then `validate_repair_against_dialogue`
   * raise for a repair that is not a dict: `in` on a number or `None` raises
   * `TypeError`; a string or list holding one of the looked-up keys raises
   * `TypeError` at `repair[key]`; any other string or list reaches
   * `repair.get`, which raises `AttributeError`.
   */
  function NonDictError(v: JVal): Exception
    requires !v.JObj?
  {
    if v.JNull? || v.JInt? then TypeError
    else if exists k :: 0 <= k < |LookedUpKeys| && KeyIn(LookedUpKeys[k], v) then TypeError
    else AttributeError
  }

  /** The issues of the repair at 1-based position `n`, or what it raises. */
  function OneRepairIssues(v: JVal, n: nat, dialogueId: JVal, turns: seq<DTurn>): Result<seq<FileIssue>, Exception> {
    if !v.JObj? then Err(NonDictError(v))
    else
      match AgainstDialogue(v.fields, turns)
      case Err(e) => Err(e)
      case Ok(ds) => Ok(Tagged(n, AsStructure(StructureIssues(v.fields, n, dialogueId))) + Tagged(n, AsAgainst(ds)))
  }

  /**
   * A repair that is not a dict always raises: `TypeError` for a number,
   * `None`, or a string or list holding a key the structure check indexes
   * with, and `AttributeError` for any other string or list.
   */
  lemma NonDictRaises(v: JVal, n: nat, dialogueId: JVal, turns: seq<DTurn>)
    requires !v.JObj?
    ensures v.JNull? || v.JInt? ==> OneRepairIssues(v, n, dialogueId, turns) == Err(TypeError)
    ensures v.JStr? || v.JList? ==>
      (OneRepairIssues(v, n, dialogueId, turns) == Err(TypeError) <==>
        exists k :: 0 <= k < |LookedUpKeys| && KeyIn(LookedUpKeys[k], v))
    ensures OneRepairIssues(v, n, dialogueId, turns) == Err(TypeError) ||
      OneRepairIssues(v, n, dialogueId, turns) == Err(AttributeError)
  {
  }

  /** A string naming a required field raises `TypeError`; a list of other strings raises `AttributeError`. */
  lemma NonDictExamples(n: nat, dialogueId: JVal, turns: seq<DTurn>)
    ensures OneRepairIssues(JStr("no trigger here"), n, dialogueId, turns) == Err(TypeError)
    ensures OneRepairIssues(JList([JStr("LI"), JInt(3)]), n, dialogueId, turns) == Err(AttributeError)
  {
    assert StartsAt("no trigger here", 3, "trigger");
    assert KeyIn(LookedUpKeys[5], JStr("no trigger here"));
    forall k | 0 <= k < |LookedUpKeys|
      ensures !KeyIn(LookedUpKeys[k], JList([JStr("LI"), JInt(3)]))
    {
      assert LookedUpKeys[k] != "LI";
    }
  }

  /** What the loop body yields for each repair, in order. */
  function Outcomes(repairs: seq<JVal>, dialogueId: JVal, turns: seq<DTurn>): (r: seq<Result<seq<FileIssue>, Exception>>)
    ensures |r| == |repairs|
    ensures forall k :: 0 <= k < |repairs| ==> r[k] == OneRepairIssues(repairs[k], k + 1, dialogueId, turns)
  {
    seq(|repairs|, k requires 0 <= k < |repairs| => OneRepairIssues(repairs[k], k + 1, dialogueId, turns))
  }

  /** A loop that appends each outcome's issues and stops at the first exception. */
  function Collect(outs: seq<Result<seq<FileIssue>, Exception>>): Result<seq<FileIssue>, Exception>
    decreases |outs|
  {
    if |outs| == 0 then Ok([])
    else Then(Collect(outs[..|outs| - 1]), outs[|outs| - 1])
  }

  /** The per-repair loop: all issues in order, or the first exception. */
  function RepairIssues(repairs: seq<JVal>, dialogueId: JVal, turns: seq<DTurn>): Result<seq<FileIssue>, Exception> {
    Collect(Outcomes(repairs, dialogueId, turns))
  }

  /** The issues so far followed by the next repair's, or the first exception raised. */
  function Then(before: Result<seq<FileIssue>, Exception>, now: Result<seq<FileIssue>, Exception>): Result<seq<FileIssue>, Exception> {
    match before
    case Err(e) => Err(e)
    case Ok(xs) =>
      match now
      case Err(e) => Err(e)
      case Ok(ys) => Ok(xs + ys)
  }

  lemma CollectStep(outs: seq<Result<seq<FileIssue>, Exception>>, k: nat)
    requires k < |outs|
    ensures Collect(outs[..k + 1]) == Then(Collect(outs[..k]), outs[k])
  {
    assert outs[..k + 1][..k] == outs[..k];
  }

  /**
   * The loop succeeds exactly when no repair raises; otherwise it raises
   * what the first raising repair did.
   */
  lemma {:induction false} CollectSpec(outs: seq<Result<seq<FileIssue>, Exception>>)
    ensures Collect(outs).Ok? <==> forall k :: 0 <= k < |outs| ==> outs[k].Ok?
    ensures Collect(outs).Err? ==>
      exists k :: 0 <= k < |outs| && outs[k] == Err(Collect(outs).error) && forall j :: 0 <= j < k ==> outs[j].Ok?
    decreases |outs|
  {
    if |outs| > 0 {
      var p := outs[..|outs| - 1];
      CollectSpec(p);
      assert forall k :: 0 <= k < |p| ==> p[k] == outs[k];
    }
  }

  /** Once an outcome raises, the loop over any longer prefix raises the same. */
  lemma {:induction false} RaisedStaysRaised(outs: seq<Result<seq<FileIssue>, Exception>>, n: nat)
    requires 0 < n <= |outs|
    requires Collect(outs[..n]).Err?
    ensures Collect(outs) == Collect(outs[..n])
    decreases |outs| - n
  {
    if n < |outs| {
      CollectStep(outs, n);
      RaisedStaysRaised(outs, n + 1);
      assert outs[..n + 1][..n + 1] == outs[..n + 1];
    } else {
      assert outs[..n] == outs;
    }
  }

  /** The turn-index list of a dict that got through the loop (missing or empty non-list counts as empty). */
  function IndexList(v: JVal): seq<int> {
    if v.JObj? && IndicesOf(v.fields).Ok? then IndicesOf(v.fields).value else []
  }

  function IndexLists(repairs: seq<JVal>): (r: seq<seq<int>>)
    ensures |r| == |repairs|
  {
    seq(|repairs|, k requires 0 <= k < |repairs| => IndexList(repairs[k]))
  }

  /** `[r.get('repair_id') for r in repairs] == list(range(1, len(repairs) + 1))`. */
  predicate IdsSequential(repairs: seq<JVal>) {
    forall k :: 0 <= k < |repairs| ==>
      repairs[k].JObj? && Get(repairs[k].fields, "repair_id", JNull) == JInt(k + 1)
  }

  /** `min(r.get('turn_indices', []), default=0)` for each repair. */
  function FirstTurns(lists: seq<seq<int>>): (r: seq<int>)
    ensures |r| == |lists|
  {
    seq(|lists|, k requires 0 <= k < |lists| => if |lists[k]| == 0 then 0 else SeqMin(lists[k]))
  }

  function OverlapWarnings(pairs: seq<(nat, nat)>): (r: seq<FileWarning>)
    ensures |r| == |pairs|
  {
    seq(|pairs|, k requires 0 <= k < |pairs| => Overlap(pairs[k].0, pairs[k].1))
  }

  /** The warnings after a loop that raised nothing. */
  function RepairWarnings(repairs: seq<JVal>): seq<FileWarning> {
    OverlapWarnings(OverlapPairs(IndexLists(repairs)))
    + (if IdsSequential(repairs) then [] else [IdsNotSequential])
    + (if NonDecreasing(FirstTurns(IndexLists(repairs))) then [] else [NotSortedByFirstTurn])
  }

  /**
   * `validate_dialogue_file` for a dialogue file called `name`: `dialogue`
   * is the loaded file, or nothing when loading it raised; `repairFile` is
   * what `load_repairs` returned for the repair file found, or nothing when
   * there is none.
   */
  function DialogueFileResult(name: string, dialogue: Option<DialogueData>, repairFile: Option<seq<JVal>>): FileResult {
    if dialogue.None? then FileResult(false, false, 0, [ProcessingError(ValueError)], [], false)
    else if repairFile.None? then FileResult(false, false, 0, [NoRepairFile], [], false)
    else
      var repairs := repairFile.value;
      if repairs == [] then FileResult(true, false, 0, [], [EmptyRepairFile], true)
      else LoadedResult(repairs, dialogue.value.dialogueId.GetOr(JStr(name)), dialogue.value.turns)
  }

  /** The result for a non-empty list of repairs: their issues and warnings, or the exception raised. */
  function LoadedResult(repairs: seq<JVal>, dialogueId: JVal, turns: seq<DTurn>): FileResult {
    match RepairIssues(repairs, dialogueId, turns)
    case Err(e) => FileResult(true, true, |repairs|, [ProcessingError(e)], [], false)
    case Ok(issues) => FileResult(true, true, |repairs|, issues, RepairWarnings(repairs), issues == [])
  }

  /**
   * A file's repairs are invalid exactly when there is no repair file, a
   * repair has an issue, or something raised; warnings, among them
   * non-sequential ids and unsorted first turns, never make a file invalid.
   * An invalid file always carries an issue and a valid one never does; a
   * file has repairs exactly when it counts some.
   */
  lemma DialogueFileSpec(name: string, dialogue: Option<DialogueData>, repairFile: Option<seq<JVal>>)
    ensures var res := DialogueFileResult(name, dialogue, repairFile);
      (!res.repairsValid <==>
        dialogue.None? || repairFile.None?
        || (repairFile.value != [] &&
            RepairIssues(repairFile.value, dialogue.value.dialogueId.GetOr(JStr(name)), dialogue.value.turns) != Ok([])))
      && (res.repairsValid <==> res.issues == [])
      && (res.hasRepairs <==> res.repairCount > 0)
      && (res.repairFileExists <==> dialogue.Some? && repairFile.Some?)
      && (res.hasRepairs ==> res.repairCount == |repairFile.value|)
  {
  }

  /** The per-repair loop of `validate_dialogue_file`. */
  method CheckRepairs(repairs: seq<JVal>, dialogueId: JVal, turns: seq<DTurn>) returns (res: Result<seq<FileIssue>, Exception>)
    ensures res == RepairIssues(repairs, dialogueId, turns)
  {
    ghost var outs := Outcomes(repairs, dialogueId, turns);
    var issues: seq<FileIssue> := [];
    for k := 0 to |repairs|
      invariant Collect(outs[..k]) == Ok(issues)
    {
      var one := CheckOneRepair(repairs[k], k + 1, dialogueId, turns);
      assert one == outs[k];
      CollectStep(outs, k);
      if one.Err? {
        RaisedStaysRaised(outs, k + 1);
        return Err(one.error);
      }
      issues := issues + one.value;
    }
    assert outs[..|repairs|] == outs;
    return Ok(issues);
  }

  /** One pass of the loop body: structure issues, then dialogue issues, each prefixed with the position. */
  method CheckOneRepair(v: JVal, n: nat, dialogueId: JVal, turns: seq<DTurn>) returns (res: Result<seq<FileIssue>, Exception>)
    ensures res == OneRepairIssues(v, n, dialogueId, turns)
  {
    if !v.JObj? {
      return Err(NonDictError(v));
    }
    var structIssues := ValidateRepairStructure(v.fields, n, dialogueId);
    var against := ValidateRepairAgainstDialogue(v.fields, turns);
    if against.Err? {
      return Err(against.error);
    }
    return Ok(Tagged(n, AsStructure(structIssues)) + Tagged(n, AsAgainst(against.value)));
  }

  /** `validate_dialogue_file`, with the file reads already done. */
  method ValidateDialogueFile(name: string, dialogue: Option<DialogueData>, repairFile: Option<seq<JVal>>)
    returns (result: FileResult)
    ensures result == DialogueFileResult(name, dialogue, repairFile)
  {
    if dialogue.None? {
      return FileResult(false, false, 0, [ProcessingError(ValueError)], [], false);
    }
    var dialogueId := dialogue.value.dialogueId.GetOr(JStr(name));
    if repairFile.None? {
      return FileResult(false, false, 0, [NoRepairFile], [], false);
    }
    var repairs := repairFile.value;
    if repairs == [] {
      return FileResult(true, false, 0, [], [EmptyRepairFile], true);
    }
    result := ValidateLoaded(repairs, dialogueId, dialogue.value.turns);
  }

  /** The part of `validate_dialogue_file` after a non-empty repair list was loaded. */
  method ValidateLoaded(repairs: seq<JVal>, dialogueId: JVal, turns: seq<DTurn>) returns (result: FileResult)
    ensures result == LoadedResult(repairs, dialogueId, turns)
  {
    var repairIssues := CheckRepairs(repairs, dialogueId, turns);
    if repairIssues.Err? {
      return FileResult(true, true, |repairs|, [ProcessingError(repairIssues.error)], [], false);
    }
    var warnings := CheckWarnings(repairs);
    result := FileResult(true, true, |repairs|, repairIssues.value, warnings, repairIssues.value == []);
  }

  /** The overlap, id and order checks that follow the per-repair loop. */
  method CheckWarnings(repairs: seq<JVal>) returns (warnings: seq<FileWarning>)
    ensures warnings == RepairWarnings(repairs)
  {
    var lists := IndexLists(repairs);
    var pairs := CheckRepairOverlap(lists);
    var overlap: seq<FileWarning> := [];
    if |pairs| > 0 {
      overlap := OverlapWarnings(pairs);
    }
    assert overlap == OverlapWarnings(OverlapPairs(lists));
    var ids: seq<FileWarning> := [];
    if !IdsSequential(repairs) {
      ids := [IdsNotSequential];
    }
    var order: seq<FileWarning> := [];
    if !NonDecreasing(FirstTurns(lists)) {
      order := [NotSortedByFirstTurn];
    }
    warnings := overlap + ids + order;
  }

  // ---------------------------------------------------------------------
  // validate_all
  // ---------------------------------------------------------------------

  /** The integer counters of the `summary` dict. */
  datatype Summary = Summary(
    totalDialogues: nat,
    withRepairFiles: nat,
    withRepairs: nat,
    withoutRepairs: nat,
    missingRepairFiles: nat,
    totalRepairs: nat,
    validRepairs: nat,
    invalidRepairs: nat,
    filesWithIssues: nat,
    filesWithWarnings: nat)

  /** The counters after one more result. */
  function Tally(s: Summary, r: FileResult): Summary {
    s.(withRepairFiles := s.withRepairFiles + (if r.repairFileExists then 1 else 0),
       missingRepairFiles := s.missingRepairFiles + (if r.repairFileExists then 0 else 1),
       withRepairs := s.withRepairs + (if r.hasRepairs then 1 else 0),
       withoutRepairs := s.withoutRepairs + (if r.hasRepairs then 0 else 1),
       totalRepairs := s.totalRepairs + (if r.hasRepairs then r.repairCount else 0),
       validRepairs := s.validRepairs + (if r.repairsValid then r.repairCount else 0),
       invalidRepairs := s.invalidRepairs + (if r.repairsValid then 0 else r.repairCount),
       filesWithIssues := s.filesWithIssues + (if r.repairsValid then 0 else 1) + (if r.issues != [] then 1 else 0),
       filesWithWarnings := s.filesWithWarnings + (if r.warnings != [] then 1 else 0))
  }

  function TallyAll(total: nat, results: seq<FileResult>): Summary
    decreases |results|
  {
    if |results| == 0 then Summary(total, 0, 0, 0, 0, 0, 0, 0, 0, 0)
    else Tally(TallyAll(total, results[..|results| - 1]), results[|results| - 1])
  }

  /** One dialogue file to validate, as its loaded parts. */
  datatype DialogueInput = DialogueInput(name: string, dialogue: Option<DialogueData>, repairFile: Option<seq<JVal>>)

  function Results(files: seq<DialogueInput>): (r: seq<FileResult>)
    ensures |r| == |files|
    ensures forall k :: 0 <= k < |files| ==>
      r[k] == DialogueFileResult(files[k].name, files[k].dialogue, files[k].repairFile)
  {
    seq(|files|, k requires 0 <= k < |files| => DialogueFileResult(files[k].name, files[k].dialogue, files[k].repairFile))
  }

  function CountInvalid(results: seq<FileResult>): (n: nat)
    ensures n <= |results|
    decreases |results|
  {
    if |results| == 0 then 0
    else CountInvalid(results[..|results| - 1]) + (if results[|results| - 1].repairsValid then 0 else 1)
  }

  /** What every result of `validate_dialogue_file` satisfies. */
  predicate Coherent(r: FileResult) {
    (r.repairsValid <==> r.issues == []) && (r.repairCount > 0 ==> r.hasRepairs)
  }

  lemma {:induction false} TallyAllSpec(total: nat, results: seq<FileResult>)
    requires forall k :: 0 <= k < |results| ==> Coherent(results[k])
    ensures var s := TallyAll(total, results);
      s.totalDialogues == total
      && s.withRepairFiles + s.missingRepairFiles == |results|
      && s.withRepairs + s.withoutRepairs == |results|
      && s.validRepairs + s.invalidRepairs == s.totalRepairs
      && s.filesWithIssues == 2 * CountInvalid(results)
      && s.filesWithWarnings <= |results|
    decreases |results|
  {
    if |results| > 0 {
      TallyAllSpec(total, results[..|results| - 1]);
    }
  }

  /**
   * Over all files: each file either has a repair file or is missing one,
   * either has repairs or not, every counted repair is either valid or
   * invalid, and `files_with_issues` counts each invalid file twice, once
   * for the verdict and once for its issues, and no other file.
   */
  lemma SummarySpec(files: seq<DialogueInput>)
    ensures var s := TallyAll(|files|, Results(files));
      s.totalDialogues == |files|
      && s.withRepairFiles + s.missingRepairFiles == |files|
      && s.withRepairs + s.withoutRepairs == |files|
      && s.validRepairs + s.invalidRepairs == s.totalRepairs
      && s.filesWithIssues == 2 * CountInvalid(Results(files))
  {
    var rs := Results(files);
    forall k | 0 <= k < |rs| ensures Coherent(rs[k]) {
      DialogueFileSpec(files[k].name, files[k].dialogue, files[k].repairFile);
    }
    TallyAllSpec(|files|, rs);
  }

  lemma ResultsStep(files: seq<DialogueInput>, i: nat)
    requires i < |files|
    ensures Results(files[..i + 1])
      == Results(files[..i]) + [DialogueFileResult(files[i].name, files[i].dialogue, files[i].repairFile)]
  {
    assert files[..i + 1][..i] == files[..i];
  }

  /** The counter updates of `validate_all` for one result. */
  method AddToSummary(summary: Summary, result: FileResult) returns (s: Summary)
    ensures s == Tally(summary, result)
  {
    s := summary;
    if result.repairFileExists {
      s := s.(withRepairFiles := s.withRepairFiles + 1);
    } else {
      s := s.(missingRepairFiles := s.missingRepairFiles + 1);
    }
    if result.hasRepairs {
      s := s.(withRepairs := s.withRepairs + 1, totalRepairs := s.totalRepairs + result.repairCount);
    } else {
      s := s.(withoutRepairs := s.withoutRepairs + 1);
    }
    if result.repairsValid {
      s := s.(validRepairs := s.validRepairs + result.repairCount);
    } else {
      s := s.(invalidRepairs := s.invalidRepairs + result.repairCount, filesWithIssues := s.filesWithIssues + 1);
    }
    if result.issues != [] {
      s := s.(filesWithIssues := s.filesWithIssues + 1);
    }
    if result.warnings != [] {
      s := s.(filesWithWarnings := s.filesWithWarnings + 1);
    }
  }

  /** `validate_all` over the dialogue files, with their loads done: the results and the counters. */
  method ValidateAll(files: seq<DialogueInput>) returns (results: seq<FileResult>, summary: Summary)
    ensures results == Results(files)
    ensures summary == TallyAll(|files|, results)
  {
    results := [];
    summary := Summary(|files|, 0, 0, 0, 0, 0, 0, 0, 0, 0);
    for i := 0 to |files|
      invariant results == Results(files[..i])
      invariant summary == TallyAll(|files|, results)
    {
      var result := ValidateDialogueFile(files[i].name, files[i].dialogue, files[i].repairFile);
      ResultsStep(files, i);
      summary := AddToSummary(summary, result);
      assert (results + [result])[..|results|] == results;
      results := results + [result];
    }
    assert files[..|files|] == files;
  }
}
