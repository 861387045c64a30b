/**
 * `scripts/cross_validate_repairs.py`: looking up a turn by its number, the
 * per-index check of a repair's turn indices, and the warning rules that
 * compare a repair's labels with the turns it cites.
 */
module CrossValidateRepairs {
  import opened Wrappers
  import opened Text
  import opened Repairs
  import ValidateRepairResults

  // ---------------------------------------------------------------------
  // get_turn_text
  // ---------------------------------------------------------------------

  /** The position of the first turn whose number is `n`. */
  function FirstTurnAt(turns: seq<DTurn>, n: int): (r: Option<nat>)
    ensures r.Some? ==> r.value < |turns| && turns[r.value].turn == Some(n)
    ensures r.Some? ==> forall j :: 0 <= j < r.value ==> turns[j].turn != Some(n)
    ensures r.None? <==> !TurnExists(turns, n)
    decreases |turns|
  {
    if |turns| == 0 then None
    else
      match FirstTurnAt(turns[..|turns| - 1], n)
      case Some(k) => Some(k)
      case None => if turns[|turns| - 1].turn == Some(n) then Some(|turns| - 1) else None
  }

  /** `get_turn_text`: the text of the first turn numbered `n`, or "". */
  function TurnText(turns: seq<DTurn>, n: int): string {
    match FirstTurnAt(turns, n)
    case Some(k) => turns[k].text.GetOr("")
    case None => ""
  }

  /** The speaker of the first turn numbered `n`, as the loop that breaks at it reads it. */
  function FirstSpeaker(turns: seq<DTurn>, n: int): Option<string> {
    match FirstTurnAt(turns, n)
    case Some(k) => turns[k].speaker
    case None => None
  }

  /**
   * A non-empty text belongs to a turn with that number, the first one; no
   * turn with that number means "".
   */
  lemma TurnTextSpec(turns: seq<DTurn>, n: int)
    ensures !TurnExists(turns, n) ==> TurnText(turns, n) == "" && FirstSpeaker(turns, n).None?
    ensures TurnText(turns, n) != "" ==>
      exists k :: 0 <= k < |turns| && turns[k].turn == Some(n) && turns[k].text == Some(TurnText(turns, n))
        && forall j :: 0 <= j < k ==> turns[j].turn != Some(n)
  {
    match FirstTurnAt(turns, n)
    case Some(k) =>
      if TurnText(turns, n) != "" {
        assert turns[k].text == Some(TurnText(turns, n));
      }
    case None =>
  }

  /** The first position at or after which no earlier turn has number `n`, found by a scan. */
  lemma FirstTurnAtIs(turns: seq<DTurn>, n: int, k: nat)
    requires k < |turns| && turns[k].turn == Some(n)
    requires forall j :: 0 <= j < k ==> turns[j].turn != Some(n)
    ensures FirstTurnAt(turns, n) == Some(k)
  {
    assert TurnExists(turns, n);
  }

  /** `get_turn_text`: the search loop with its early return. */
  method GetTurnText(turns: seq<DTurn>, n: int) returns (text: string)
    ensures text == TurnText(turns, n)
  {
    for k := 0 to |turns|
      invariant forall j :: 0 <= j < k ==> turns[j].turn != Some(n)
    {
      if turns[k].turn == Some(n) {
        FirstTurnAtIs(turns, n, k);
        return turns[k].text.GetOr("");
      }
    }
    return "";
  }

  /** The loop that looks up the speaker of the first turn with a number, stopping at it. */
  method GetFirstSpeaker(turns: seq<DTurn>, n: int) returns (speaker: Option<string>)
    ensures speaker == FirstSpeaker(turns, n)
  {
    speaker := None;
    for k := 0 to |turns|
      invariant forall j :: 0 <= j < k ==> turns[j].turn != Some(n)
    {
      if turns[k].turn == Some(n) {
        FirstTurnAtIs(turns, n, k);
        speaker := turns[k].speaker;
        return;
      }
    }
  }

  // ---------------------------------------------------------------------
  // validate_repair_turn_indices
  // ---------------------------------------------------------------------

  datatype IndexIssue =
    | BelowOne(idx: int)
    | ExceedsMax(idx: int, maxTurn: int)
    | Absent(idx: int)
  {
    function Idx(): int {
      match this
      case BelowOne(i) => i
      case ExceedsMax(i, _) => i
      case Absent(i) => i
    }
  }

  /** The one issue the `if`/`elif`/`else` chain reports for an index, if any. */
  function IndexIssueOf(idx: int, turns: seq<DTurn>): Option<IndexIssue> {
    if idx < 1 then Some(BelowOne(idx))
    else if idx > MaxTurn(turns) then Some(ExceedsMax(idx, MaxTurn(turns)))
    else if !TurnExists(turns, idx) then Some(Absent(idx))
    else None
  }

  /** An index that names an existing turn of number at least 1. */
  predicate GoodIndex(idx: int, turns: seq<DTurn>) {
    1 <= idx && TurnExists(turns, idx)
  }

  function IndexIssues(xs: seq<int>, turns: seq<DTurn>): seq<IndexIssue>
    decreases |xs|
  {
    if |xs| == 0 then []
    else
      var last := IndexIssueOf(xs[|xs| - 1], turns);
      IndexIssues(xs[..|xs| - 1], turns) + (if last.Some? then [last.value] else [])
  }

  /** `validate_repair_turn_indices`, or the `TypeError` a non-integer index raises. */
  function TurnIndexIssues(r: Fields, turns: seq<DTurn>): Result<seq<IndexIssue>, Exception> {
    match IndicesOf(r)
    case Err(e) => Err(e)
    case Ok(xs) => Ok(IndexIssues(xs, turns))
  }

  /**
   * An index gets an issue exactly when it is not a good index; an index
   * above the largest turn number is never a turn, so "absent" is reported
   * only for indices in range. The same indices are the ones for which
   * `validate_repair_against_dialogue` reports something.
   */
  lemma IndexIssueOfSpec(idx: int, turns: seq<DTurn>)
    ensures IndexIssueOf(idx, turns).None? <==> GoodIndex(idx, turns)
    ensures IndexIssueOf(idx, turns).Some? ==> IndexIssueOf(idx, turns).value.Idx() == idx
    ensures IndexIssueOf(idx, turns) == Some(Absent(idx)) ==> 1 <= idx <= MaxTurn(turns)
    ensures IndexIssueOf(idx, turns).Some? <==> ValidateRepairResults.IndexIssues(idx, turns) != []
  {
    if TurnExists(turns, idx) {
      var k :| 0 <= k < |turns| && turns[k].turn == Some(idx);
      assert turns[k].turn.GetOr(0) == idx;
    }
    ValidateRepairResults.IndexIssuesSpec(idx, turns);
  }

  /**
   * One issue per bad index, in listing order: every issue names a bad
   * index of the list, every bad index is named, and no issue at all means
   * every index is good.
   */
  lemma {:induction false} IndexIssuesSpec(xs: seq<int>, turns: seq<DTurn>)
    ensures |IndexIssues(xs, turns)| <= |xs|
    ensures forall k :: 0 <= k < |IndexIssues(xs, turns)| ==>
      IndexIssues(xs, turns)[k].Idx() in xs && !GoodIndex(IndexIssues(xs, turns)[k].Idx(), turns)
    ensures forall j :: 0 <= j < |xs| && !GoodIndex(xs[j], turns) ==>
      exists k :: 0 <= k < |IndexIssues(xs, turns)| && IndexIssues(xs, turns)[k].Idx() == xs[j]
    ensures IndexIssues(xs, turns) == [] <==> forall j :: 0 <= j < |xs| ==> GoodIndex(xs[j], turns)
    decreases |xs|
  {
    if |xs| > 0 {
      var p := xs[..|xs| - 1];
      var x := xs[|xs| - 1];
      IndexIssuesSpec(p, turns);
      IndexIssueOfSpec(x, turns);
      var a := IndexIssues(p, turns);
      var b: seq<IndexIssue> := if IndexIssueOf(x, turns).Some? then [IndexIssueOf(x, turns).value] else [];
      assert IndexIssues(xs, turns) == a + b;
      assert forall j :: 0 <= j < |p| ==> p[j] == xs[j];
      forall j | 0 <= j < |xs| && !GoodIndex(xs[j], turns)
        ensures exists k :: 0 <= k < |a + b| && (a + b)[k].Idx() == xs[j]
      {
        if j == |xs| - 1 {
          assert (a + b)[|a|].Idx() == xs[j];
        } else {
          var k :| 0 <= k < |a| && a[k].Idx() == p[j];
          assert (a + b)[k].Idx() == xs[j];
        }
      }
      forall k | 0 <= k < |a + b|
        ensures (a + b)[k].Idx() in xs && !GoodIndex((a + b)[k].Idx(), turns)
      {
        if k < |a| {
          assert (a + b)[k] == a[k];
          assert a[k].Idx() in p;
        } else {
          assert (a + b)[k] == IndexIssueOf(x, turns).value;
        }
      }
    }
  }

  /** `validate_repair_turn_indices`: the loop over the indices. */
  method ValidateRepairTurnIndices(r: Fields, turns: seq<DTurn>) returns (res: Result<seq<IndexIssue>, Exception>)
    ensures res == TurnIndexIssues(r, turns)
  {
    var maxTurn := MaxTurn(turns);
    var indices := IndicesOf(r);
    if indices.Err? {
      return Err(indices.error);
    }
    var xs := indices.value;
    var issues := [];
    for k := 0 to |xs|
      invariant issues == IndexIssues(xs[..k], turns)
    {
      assert xs[..k + 1][..k] == xs[..k];
      var idx := xs[k];
      if idx < 1 {
        issues := issues + [BelowOne(idx)];
      } else if idx > maxTurn {
        issues := issues + [ExceedsMax(idx, maxTurn)];
      } else {
        var turnExists := TurnExists(turns, idx);
        if !turnExists {
          issues := issues + [Absent(idx)];
        }
      }
    }
    assert xs[..|xs|] == xs;
    return Ok(issues);
  }

  // ---------------------------------------------------------------------
  // cross_validate_repair_content (warning rules)
  // ---------------------------------------------------------------------

  datatype ContentWarning =
    | FewValidTurns(count: nat)
    | LargeSpan(size: nat)
    | InitiationMismatch(initiation: string, first: int, speaker: string)
    | NoRepairKeywords
    | NearDialogueEnd(last: int, lastInDialogue: int)
    | EvidenceUnrelated

  /** The fields the warning rules read, each with the default `repair.get` supplies. */
  datatype ContentFields = ContentFields(trigger: JVal, evidence: JVal, initiation: JVal, resolution: JVal)

  function ContentFieldsOf(r: Fields): ContentFields {
    ContentFields(Get(r, "trigger", JStr("")), Get(r, "evidence_summary", JStr("")),
                  Get(r, "initiation", JStr("")), Get(r, "resolution", JStr("")))
  }

  /** The words whose presence in a cited turn counts as a sign of repair. */
  const RepairKeywords: seq<string> := ["understand", "repeat", "clarify", "confus", "sorry", "mean"]

  /** `repair_turns`: the cited turns that have text, in citing order, repeats included. */
  function RepairTurns(turns: seq<DTurn>, xs: seq<int>): (rt: seq<(int, string)>)
    decreases |xs|
  {
    if |xs| == 0 then []
    else
      var x := xs[|xs| - 1];
      RepairTurns(turns, xs[..|xs| - 1]) + (if TurnText(turns, x) != "" then [(x, TurnText(turns, x))] else [])
  }

  /** The cited turns with text are exactly the cited indices whose turn has a non-empty text. */
  lemma {:induction false} RepairTurnsSpec(turns: seq<DTurn>, xs: seq<int>)
    ensures |RepairTurns(turns, xs)| <= |xs|
    ensures forall k :: 0 <= k < |RepairTurns(turns, xs)| ==>
      RepairTurns(turns, xs)[k].0 in xs && RepairTurns(turns, xs)[k].1 == TurnText(turns, RepairTurns(turns, xs)[k].0) != ""
    ensures forall j :: 0 <= j < |xs| && TurnText(turns, xs[j]) != "" ==>
      exists k :: 0 <= k < |RepairTurns(turns, xs)| && RepairTurns(turns, xs)[k].0 == xs[j]
    decreases |xs|
  {
    if |xs| > 0 {
      var p := xs[..|xs| - 1];
      var x := xs[|xs| - 1];
      RepairTurnsSpec(turns, p);
      var a := RepairTurns(turns, p);
      var b: seq<(int, string)> := if TurnText(turns, x) != "" then [(x, TurnText(turns, x))] else [];
      assert RepairTurns(turns, xs) == a + b;
      assert forall j :: 0 <= j < |p| ==> p[j] == xs[j];
      forall j | 0 <= j < |xs| && TurnText(turns, xs[j]) != ""
        ensures exists k :: 0 <= k < |a + b| && (a + b)[k].0 == xs[j]
      {
        if j == |xs| - 1 {
          assert (a + b)[|a|].0 == xs[j];
        } else {
          var k :| 0 <= k < |a| && a[k].0 == p[j];
          assert (a + b)[k].0 == xs[j];
        }
      }
      forall k | 0 <= k < |a + b|
        ensures (a + b)[k].0 in xs && (a + b)[k].1 == TurnText(turns, (a + b)[k].0) != ""
      {
        if k < |a| {
          assert (a + b)[k] == a[k];
          assert a[k].0 in p;
        }
      }
    }
  }

  /** `any(keyword in turn_text.lower() for keyword in [...])`. */
  predicate HasRepairKeyword(text: string) {
    exists k :: 0 <= k < |RepairKeywords| && Contains(Lower(text), RepairKeywords[k])
  }

  predicate AnyRepairKeyword(rt: seq<(int, string)>) {
    exists k :: 0 <= k < |rt| && HasRepairKeyword(rt[k].1)
  }

  /** The initiation check against the speaker of the lowest cited turn. */
  function SpeakerWarnings(first: int, initiation: JVal, turns: seq<DTurn>): (w: seq<ContentWarning>)
    ensures AllOfKind(w, Mismatch)
  {
    match FirstSpeaker(turns, first)
    case None => []
    case Some(s) =>
      if s == "" then []
      else if initiation == JStr("LI") && s != "learner" then [InitiationMismatch("LI", first, s)]
      else if initiation == JStr("BI") && s != "bot" then [InitiationMismatch("BI", first, s)]
      else []
  }

  function FewTurnsWarning(rt: seq<(int, string)>): (w: seq<ContentWarning>)
    ensures AllOfKind(w, Few)
  {
    if |rt| < 2 then [FewValidTurns(|rt|)] else []
  }

  function SpanWarning(xs: seq<int>): (w: seq<ContentWarning>)
    ensures AllOfKind(w, Span)
  {
    if |xs| > 10 then [LargeSpan(|xs|)] else []
  }

  function KeywordWarning(trigger: JVal, rt: seq<(int, string)>): (w: seq<ContentWarning>)
    ensures AllOfKind(w, Keywords)
  {
    if Truthy(trigger) && !AnyRepairKeyword(rt) && |rt| < 3 then [NoRepairKeywords] else []
  }

  function EndWarning(xs: seq<int>, resolution: JVal, turns: seq<DTurn>): (w: seq<ContentWarning>)
    requires |xs| > 0
    ensures AllOfKind(w, NearEnd)
  {
    var last := ValidateRepairResults.SeqMax(xs);
    if resolution == JStr("R") && last >= MaxTurn(turns) - 2 then [NearDialogueEnd(last, MaxTurn(turns))] else []
  }

  /** The warnings raised inside `if len(turn_indices) > 0`, in their order. */
  function SequenceWarnings(xs: seq<int>, f: ContentFields, turns: seq<DTurn>): seq<ContentWarning> {
    if |xs| == 0 then []
    else
      var rt := RepairTurns(turns, xs);
      FewTurnsWarning(rt) + SpanWarning(xs)
      + SpeakerWarnings(ValidateRepairResults.SeqMin(xs), f.initiation, turns)
      + KeywordWarning(f.trigger, rt)
      + EndWarning(xs, f.resolution, turns)
  }

  /**
   * Some of the first three cited turns with text shares a word with the
   * evidence. `words` stands for `set(re.findall(r'\b\w+\b', s))`.
   */
  predicate EvidenceMentioned(xs: seq<int>, evidence: string, turns: seq<DTurn>, words: string -> set<string>) {
    exists k :: 0 <= k < |xs| && k < 3 && TurnText(turns, xs[k]) != "" &&
      words(Lower(TurnText(turns, xs[k]))) * words(Lower(evidence)) != {}
  }

  /** Looking up a trigger or evidence that is truthy but not a string fails on `.lower()`. */
  predicate RaisesOnLower(v: JVal) {
    Truthy(v) && !v.JStr?
  }

  /** `cross_validate_repair_content`: its (always empty) issues and its warnings, or the error it raises. */
  function ContentCheck(xs: seq<int>, f: ContentFields, turns: seq<DTurn>, words: string -> set<string>)
    : Result<(seq<string>, seq<ContentWarning>), Exception>
  {
    if |xs| > 0 && (RaisesOnLower(f.trigger) || RaisesOnLower(f.evidence)) then Err(AttributeError)
    else Ok(([], SequenceWarnings(xs, f, turns) + EvidenceWarning(xs, f.evidence, turns, words)))
  }

  function EvidenceWarning(xs: seq<int>, evidence: JVal, turns: seq<DTurn>, words: string -> set<string>)
    : (w: seq<ContentWarning>)
    ensures AllOfKind(w, Unrelated)
  {
    if |xs| > 0 && Truthy(evidence) && evidence.JStr? && !EvidenceMentioned(xs, evidence.s, turns, words)
    then [EvidenceUnrelated] else []
  }

  datatype WarningKind = Few | Span | Mismatch | Keywords | NearEnd | Unrelated

  function KindOf(c: ContentWarning): WarningKind {
    match c
    case FewValidTurns(_) => Few
    case LargeSpan(_) => Span
    case InitiationMismatch(_, _, _) => Mismatch
    case NoRepairKeywords => Keywords
    case NearDialogueEnd(_, _) => NearEnd
    case EvidenceUnrelated => Unrelated
  }

  /** Some warning of the given kind is in the report. */
  predicate Warns(w: seq<ContentWarning>, kind: WarningKind) {
    exists k :: 0 <= k < |w| && KindOf(w[k]) == kind
  }

  /** The check fails only on a trigger or evidence that is not a string, and never reports an issue. */
  lemma ContentCheckOutcome(xs: seq<int>, f: ContentFields, turns: seq<DTurn>, words: string -> set<string>)
    ensures ContentCheck(xs, f, turns, words).Err? <==>
      |xs| > 0 && (RaisesOnLower(f.trigger) || RaisesOnLower(f.evidence))
    ensures ContentCheck(xs, f, turns, words).Ok? ==> ContentCheck(xs, f, turns, words).value.0 == []
  {
  }

  /** The initiation rule: at most one warning, given exactly when the first cited turn's speaker contradicts it. */
  lemma SpeakerWarningsSpec(first: int, initiation: JVal, turns: seq<DTurn>)
    ensures |SpeakerWarnings(first, initiation, turns)| <= 1
    ensures forall k :: 0 <= k < |SpeakerWarnings(first, initiation, turns)| ==>
      KindOf(SpeakerWarnings(first, initiation, turns)[k]) == Mismatch
    ensures |SpeakerWarnings(first, initiation, turns)| > 0 <==>
      FirstSpeaker(turns, first).Some? && FirstSpeaker(turns, first).value != ""
      && ((initiation == JStr("LI") && FirstSpeaker(turns, first).value != "learner")
       || (initiation == JStr("BI") && FirstSpeaker(turns, first).value != "bot"))
  {
  }

  /**
   * Each warning rule fires exactly under its condition: fewer than two
   * cited turns with text, more than ten indices, a first cited turn whose
   * speaker contradicts the initiation, a resolved repair ending within two
   * turns of the last turn number, and evidence sharing no word with the
   * first three cited turns.
   */
  lemma WarningRules(xs: seq<int>, f: ContentFields, turns: seq<DTurn>, words: string -> set<string>)
    requires |xs| > 0
    ensures var w := SequenceWarnings(xs, f, turns) + EvidenceWarning(xs, f.evidence, turns, words);
      && (Warns(w, Few) <==> |RepairTurns(turns, xs)| < 2)
      && (Warns(w, Span) <==> |xs| > 10)
      && (Warns(w, NearEnd) <==> f.resolution == JStr("R") && ValidateRepairResults.SeqMax(xs) >= MaxTurn(turns) - 2)
      && (Warns(w, Mismatch) <==> |SpeakerWarnings(ValidateRepairResults.SeqMin(xs), f.initiation, turns)| > 0)
      && (Warns(w, Unrelated) <==> Truthy(f.evidence) && f.evidence.JStr? && !EvidenceMentioned(xs, f.evidence.s, turns, words))
  {
    var rt := RepairTurns(turns, xs);
    var c := SpeakerWarnings(ValidateRepairResults.SeqMin(xs), f.initiation, turns);
    SpeakerWarningsSpec(ValidateRepairResults.SeqMin(xs), f.initiation, turns);
    WarnsSplit(FewTurnsWarning(rt), SpanWarning(xs), c, KeywordWarning(f.trigger, rt),
      EndWarning(xs, f.resolution, turns), EvidenceWarning(xs, f.evidence, turns, words));
  }

  /** Where a warning of each kind can sit in the concatenated report. */
  lemma WarnsSplit(a: seq<ContentWarning>, b: seq<ContentWarning>, c: seq<ContentWarning>,
                   d: seq<ContentWarning>, e: seq<ContentWarning>, f: seq<ContentWarning>)
    requires AllOfKind(a, Few) && AllOfKind(b, Span) && AllOfKind(c, Mismatch)
    requires AllOfKind(d, Keywords) && AllOfKind(e, NearEnd) && AllOfKind(f, Unrelated)
    ensures Warns(a + b + c + d + e + f, Few) <==> |a| > 0
    ensures Warns(a + b + c + d + e + f, Span) <==> |b| > 0
    ensures Warns(a + b + c + d + e + f, Mismatch) <==> |c| > 0
    ensures Warns(a + b + c + d + e + f, NearEnd) <==> |e| > 0
    ensures Warns(a + b + c + d + e + f, Unrelated) <==> |f| > 0
  {
    WarnsUniform(a, Few);
    WarnsUniform(b, Span);
    WarnsUniform(c, Mismatch);
    WarnsUniform(d, Keywords);
    WarnsUniform(e, NearEnd);
    WarnsUniform(f, Unrelated);
    WarnsConcat(a, b);
    WarnsConcat(a + b, c);
    WarnsConcat(a + b + c, d);
    WarnsConcat(a + b + c + d, e);
    WarnsConcat(a + b + c + d + e, f);
  }

  lemma WarnsConcat(u: seq<ContentWarning>, v: seq<ContentWarning>)
    ensures forall kind :: Warns(u + v, kind) <==> Warns(u, kind) || Warns(v, kind)
  {
    forall kind ensures Warns(u + v, kind) <==> Warns(u, kind) || Warns(v, kind) {
      if Warns(u, kind) {
        var k :| 0 <= k < |u| && KindOf(u[k]) == kind;
        assert (u + v)[k] == u[k];
      }
      if Warns(v, kind) {
        var k :| 0 <= k < |v| && KindOf(v[k]) == kind;
        assert (u + v)[|u| + k] == v[k];
      }
      if Warns(u + v, kind) {
        var k :| 0 <= k < |u + v| && KindOf((u + v)[k]) == kind;
        if k < |u| {
          assert (u + v)[k] == u[k];
        } else {
          assert (u + v)[k] == v[k - |u|];
        }
      }
    }
  }

  /** Every warning in `u` is of the given kind. */
  predicate AllOfKind(u: seq<ContentWarning>, kind: WarningKind) {
    forall k :: 0 <= k < |u| ==> KindOf(u[k]) == kind
  }

  lemma WarnsUniform(u: seq<ContentWarning>, kind0: WarningKind)
    requires AllOfKind(u, kind0)
    ensures forall kind :: Warns(u, kind) <==> kind == kind0 && |u| > 0
  {
    if |u| > 0 {
      assert KindOf(u[0]) == kind0;
    }
  }

  /** The loop building `repair_turns`. */
  method CollectRepairTurns(turns: seq<DTurn>, xs: seq<int>) returns (rt: seq<(int, string)>)
    ensures rt == RepairTurns(turns, xs)
  {
    rt := [];
    for k := 0 to |xs|
      invariant rt == RepairTurns(turns, xs[..k])
    {
      assert xs[..k + 1][..k] == xs[..k];
      var text := GetTurnText(turns, xs[k]);
      if text != "" {
        rt := rt + [(xs[k], text)];
      }
    }
    assert xs[..|xs|] == xs;
  }

  /** The keyword loop over `repair_turns`, stopping at the first turn with a keyword. */
  method FindRepairKeywords(rt: seq<(int, string)>) returns (found: bool)
    ensures found == AnyRepairKeyword(rt)
  {
    found := false;
    for k := 0 to |rt|
      invariant forall j :: 0 <= j < k ==> !HasRepairKeyword(rt[j].1)
    {
      if HasRepairKeyword(rt[k].1) {
        found := true;
        return;
      }
    }
  }

  /** The loop over `turn_indices[:3]`, stopping at the first turn sharing a word with the evidence. */
  method FindMention(xs: seq<int>, evidence: string, turns: seq<DTurn>, words: string -> set<string>)
    returns (mentioned: bool)
    ensures mentioned == EvidenceMentioned(xs, evidence, turns, words)
  {
    var evidenceWords := words(Lower(evidence));
    mentioned := false;
    var n := if |xs| < 3 then |xs| else 3;
    for k := 0 to n
      invariant forall j :: 0 <= j < k ==>
        !(TurnText(turns, xs[j]) != "" && words(Lower(TurnText(turns, xs[j]))) * evidenceWords != {})
    {
      var text := GetTurnText(turns, xs[k]);
      if text != "" && words(Lower(text)) * evidenceWords != {} {
        mentioned := true;
        return;
      }
    }
  }

  /** The initiation check: the speaker lookup loop, then the comparison. */
  method CheckSpeaker(first: int, initiation: JVal, turns: seq<DTurn>) returns (warnings: seq<ContentWarning>)
    ensures warnings == SpeakerWarnings(first, initiation, turns)
  {
    warnings := [];
    var speaker := GetFirstSpeaker(turns, first);
    if speaker.Some? && speaker.value != "" {
      if initiation == JStr("LI") && speaker.value != "learner" {
        warnings := [InitiationMismatch("LI", first, speaker.value)];
      } else if initiation == JStr("BI") && speaker.value != "bot" {
        warnings := [InitiationMismatch("BI", first, speaker.value)];
      }
    }
  }

  /** The trigger check: the keyword loop runs only for a truthy trigger. */
  method CheckKeywords(trigger: JVal, rt: seq<(int, string)>) returns (warnings: seq<ContentWarning>)
    ensures warnings == KeywordWarning(trigger, rt)
  {
    warnings := [];
    if Truthy(trigger) {
      var found := FindRepairKeywords(rt);
      if !found && |rt| < 3 {
        warnings := [NoRepairKeywords];
      }
    }
  }

  /** The rules inside `if len(turn_indices) > 0`, once the trigger is known to be usable. */
  method CheckSequence(xs: seq<int>, f: ContentFields, turns: seq<DTurn>) returns (warnings: seq<ContentWarning>)
    requires |xs| > 0
    ensures warnings == SequenceWarnings(xs, f, turns)
  {
    var rt := CollectRepairTurns(turns, xs);
    var few: seq<ContentWarning> := [];
    if |rt| < 2 {
      few := [FewValidTurns(|rt|)];
    }
    var span: seq<ContentWarning> := [];
    if |xs| > 10 {
      span := [LargeSpan(|xs|)];
    }
    var speakerWarnings := CheckSpeaker(ValidateRepairResults.SeqMin(xs), f.initiation, turns);
    var keywordWarnings := CheckKeywords(f.trigger, rt);
    var endWarnings := CheckEnd(xs, f.resolution, turns);
    assert few == FewTurnsWarning(rt);
    assert span == SpanWarning(xs);
    warnings := few + span + speakerWarnings + keywordWarnings + endWarnings;
  }

  /** The resolution check against the highest turn number of the dialogue. */
  method CheckEnd(xs: seq<int>, resolution: JVal, turns: seq<DTurn>) returns (warnings: seq<ContentWarning>)
    requires |xs| > 0
    ensures warnings == EndWarning(xs, resolution, turns)
  {
    warnings := [];
    var last := ValidateRepairResults.SeqMax(xs);
    if resolution == JStr("R") {
      var lastInDialogue := MaxTurn(turns);
      if last >= lastInDialogue - 2 {
        warnings := [NearDialogueEnd(last, lastInDialogue)];
      }
    }
  }

  /** `cross_validate_repair_content`, with the cited indices given as integers. */
  method CrossValidateRepairContent(xs: seq<int>, r: Fields, turns: seq<DTurn>, words: string -> set<string>)
    returns (res: Result<(seq<string>, seq<ContentWarning>), Exception>)
    ensures res == ContentCheck(xs, ContentFieldsOf(r), turns, words)
  {
    var f := ContentFieldsOf(r);
    res := CheckContent(xs, f, turns, words);
  }

  /** The body of `cross_validate_repair_content` once the fields are read. */
  method CheckContent(xs: seq<int>, f: ContentFields, turns: seq<DTurn>, words: string -> set<string>)
    returns (res: Result<(seq<string>, seq<ContentWarning>), Exception>)
    ensures res == ContentCheck(xs, f, turns, words)
  {
    var issues: seq<string> := [];
    var warnings: seq<ContentWarning> := [];
    if |xs| > 0 {
      if RaisesOnLower(f.trigger) {
        return Err(AttributeError);
      }
      warnings := CheckSequence(xs, f, turns);
    }
    var evidenceWarnings: seq<ContentWarning> := [];
    if Truthy(f.evidence) && |xs| > 0 {
      if !f.evidence.JStr? {
        return Err(AttributeError);
      }
      var mentioned := FindMention(xs, f.evidence.s, turns, words);
      if !mentioned {
        evidenceWarnings := [EvidenceUnrelated];
      }
    }
    return Ok((issues, warnings + evidenceWarnings));
  }
}
