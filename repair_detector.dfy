/**
 * `scripts/repair_detector.py`: the schema check applied to each annotation
 * the model returns, and the text surgery that digs a JSON array out of the
 * model's reply before `json.loads` sees it.
 */
module RepairDetector {
  import opened Wrappers
  import opened Text
  import opened Repairs

  // ---------------------------------------------------------------------
  // validate_repair_annotation
  // ---------------------------------------------------------------------

  /** Every name in `RequiredFields` is a key of `r`. */
  predicate HasRequired(r: Fields) {
    "repair_id" in r && "turn_indices" in r && "initiation" in r && "resolution" in r
    && "trigger" in r && "evidence_summary" in r
  }

  predicate ValidInitiation(v: JVal) {
    v == JStr("LI") || v == JStr("BI")
  }

  predicate ValidResolution(v: JVal) {
    v == JStr("R") || v == JStr("U-A") || v == JStr("U-P")
  }

  /** The verdict of `validate_repair_annotation`. */
  predicate AnnotationValid(r: Fields) {
    HasRequired(r) && ValidInitiation(r["initiation"]) && ValidResolution(r["resolution"])
    && r["turn_indices"].JList?
  }

  /**
   * The dict after `validate_repair_annotation`: once every required field
   * is present, `dialogue_id` holds the given id, whatever the verdict.
   */
  function Annotated(r: Fields, dialogueId: string): Fields {
    if HasRequired(r) then r["dialogue_id" := JStr(dialogueId)] else r
  }

  /**
   * The check rejects every dict missing a required field and leaves it
   * untouched; `dialogue_id` itself is not required. Otherwise only
   * `dialogue_id` changes, the verdict is the same before and after the
   * update, and a second call changes nothing more. An empty list of turn
   * indices and a list holding non-integers both pass.
   */
  lemma AnnotationSpec(r: Fields, dialogueId: string)
    ensures !HasRequired(r) ==> !AnnotationValid(r) && Annotated(r, dialogueId) == r
    ensures HasRequired(r) ==> Annotated(r, dialogueId)["dialogue_id"] == JStr(dialogueId)
    ensures forall key :: key in r && key != "dialogue_id" ==>
      key in Annotated(r, dialogueId) && Annotated(r, dialogueId)[key] == r[key]
    ensures AnnotationValid(Annotated(r, dialogueId)) == AnnotationValid(r)
    ensures Annotated(Annotated(r, dialogueId), dialogueId) == Annotated(r, dialogueId)
    ensures HasRequired(r) && ValidInitiation(r["initiation"]) && ValidResolution(r["resolution"]) ==>
      AnnotationValid(r["turn_indices" := JList([])]) && AnnotationValid(r["turn_indices" := JList([JStr("x")])])
  {
    if HasRequired(r) {
      var a := Annotated(r, dialogueId);
      assert a["initiation"] == r["initiation"];
      assert a["resolution"] == r["resolution"];
      assert a["turn_indices"] == r["turn_indices"];
      assert a["dialogue_id" := JStr(dialogueId)] == a;
    }
  }

  /** `validate_repair_annotation`, which fixes `dialogue_id` in the caller's dict. */
  method ValidateRepairAnnotation(repair: RepairObj, dialogueId: string) returns (ok: bool)
    modifies repair
    ensures ok == AnnotationValid(old(repair.fields))
    ensures repair.fields == Annotated(old(repair.fields), dialogueId)
  {
    for k := 0 to |RequiredFields|
      invariant forall j :: 0 <= j < k ==> RequiredFields[j] in repair.fields
      invariant repair.fields == old(repair.fields)
    {
      if RequiredFields[k] !in repair.fields {
        assert !HasRequired(repair.fields);
        return false;
      }
    }
    assert RequiredFields == ["repair_id", "turn_indices", "initiation", "resolution", "trigger", "evidence_summary"];
    assert HasRequired(repair.fields) by {
      assert RequiredFields[0] in repair.fields && RequiredFields[1] in repair.fields;
      assert RequiredFields[2] in repair.fields && RequiredFields[3] in repair.fields;
      assert RequiredFields[4] in repair.fields && RequiredFields[5] in repair.fields;
    }
    if Get(repair.fields, "dialogue_id", JNull) != JStr(dialogueId) {
      repair.fields := repair.fields["dialogue_id" := JStr(dialogueId)];
    } else {
      assert repair.fields["dialogue_id" := JStr(dialogueId)] == repair.fields;
    }
    assert repair.fields["initiation"] == old(repair.fields)["initiation"];
    assert repair.fields["resolution"] == old(repair.fields)["resolution"];
    assert repair.fields["turn_indices"] == old(repair.fields)["turn_indices"];
    if !ValidInitiation(repair.fields["initiation"]) {
      return false;
    }
    if !ValidResolution(repair.fields["resolution"]) {
      return false;
    }
    if !repair.fields["turn_indices"].JList? {
      return false;
    }
    return true;
  }

  // ---------------------------------------------------------------------
  // extract_json_from_response: locating the candidate text
  // ---------------------------------------------------------------------

  /** `s.find(pat, from)`, as an index or nothing. */
  function FindFrom(s: string, pat: string, from: nat): (r: Option<nat>)
    ensures r.Some? ==> from <= r.value && StartsAt(s, r.value, pat)
    ensures r.Some? ==> forall i :: from <= i < r.value ==> !StartsAt(s, i, pat)
    ensures r.None? ==> forall i :: from <= i <= |s| ==> !StartsAt(s, i, pat)
    decreases |s| + 1 - from
  {
    if from > |s| then None
    else if StartsAt(s, from, pat) then Some(from)
    else FindFrom(s, pat, from + 1)
  }

  /** `s.rfind(c)`, as an index or nothing. */
  function LastIndex(s: string, c: char): (r: Option<nat>)
    ensures r.Some? ==> r.value < |s| && s[r.value] == c && forall i :: r.value < i < |s| ==> s[i] != c
    ensures r.None? ==> forall i :: 0 <= i < |s| ==> s[i] != c
    decreases |s|
  {
    if |s| == 0 then None
    else if s[|s| - 1] == c then Some(|s| - 1)
    else LastIndex(s[..|s| - 1], c)
  }

  /** `s.count(c)` for one character. */
  function CountChar(s: string, c: char): (n: nat)
    ensures n <= |s|
    decreases |s|
  {
    if |s| == 0 then 0 else CountChar(s[..|s| - 1], c) + (if s[|s| - 1] == c then 1 else 0)
  }

  /**
   * `re.search(r'```(?:json)?\s*(.*?)\s*```', text, re.DOTALL).group(1).strip()`,
   * or nothing when the search fails. The search succeeds exactly when a
   * second fence starts at or after the end of the first fence (and its
   * `json` tag). The lazy group then ends at the first such fence, and the
   * surrounding `\s*` only move whitespace that `strip` removes anyway.
   */
  function FencedBlock(text: string): Option<string> {
    match FindFrom(text, "```", 0)
    case None => None
    case Some(p) =>
      var g := if StartsAt(text, p + 3, "json") then p + 7 else p + 3;
      match FindFrom(text, "```", g)
      case None => None
      case Some(q) => Some(Strip(text[g..q]))
  }

  /**
   * `re.search(r'(\[.*\])', text, re.DOTALL).group(1)`: the greedy span from
   * the first `[` to the last `]`, or the whole text when there is no such span.
   */
  function GreedySpan(text: string): (r: string)
    ensures |r| <= |text|
  {
    match FindFrom(text, "[", 0)
    case None => text
    case Some(a) =>
      match LastIndex(text, ']')
      case None => text
      case Some(b) => if a < b then text[a..b + 1] else text
  }

  // ---------------------------------------------------------------------
  // The bracket counter
  // ---------------------------------------------------------------------

  /** The bracket count after the first `n` characters: each `[` adds one, each `]` takes one away. */
  function Depth(s: string, n: nat): int
    requires n <= |s|
    decreases n
  {
    if n == 0 then 0
    else Depth(s, n - 1) + (if s[n - 1] == '[' then 1 else if s[n - 1] == ']' then -1 else 0)
  }

  /** The counting loop stops at `i`: a `]` that brings the count back to zero. */
  predicate ClosesAt(s: string, i: nat) {
    i < |s| && s[i] == ']' && Depth(s, i + 1) == 0
  }

  function FirstCloseFrom(s: string, from: nat): (r: Option<nat>)
    requires from <= |s|
    ensures r.Some? ==> from <= r.value && ClosesAt(s, r.value)
    ensures r.Some? ==> forall j :: from <= j < r.value ==> !ClosesAt(s, j)
    ensures r.None? ==> forall j :: from <= j < |s| ==> !ClosesAt(s, j)
    decreases |s| - from
  {
    if from == |s| then None
    else if ClosesAt(s, from) then Some(from)
    else FirstCloseFrom(s, from + 1)
  }

  /** Where the bracket-counting loop breaks, if it does. */
  function FirstBalanced(s: string): (r: Option<nat>)
    ensures r.Some? ==> ClosesAt(s, r.value) && forall j :: 0 <= j < r.value ==> !ClosesAt(s, j)
    ensures r.None? ==> forall j :: 0 <= j < |s| ==> !ClosesAt(s, j)
  {
    FirstCloseFrom(s, 0)
  }

  /** `response_text[:i+1]` at the break, or the text unchanged when the count never returns to zero. */
  function CutAtBalance(s: string): string {
    match FirstBalanced(s)
    case Some(i) => s[..i + 1]
    case None => s
  }

  /** The counting loop over `s`: the index of its break, or -1. */
  method ScanBrackets(s: string) returns (last: int)
    ensures FirstBalanced(s).Some? ==> last == FirstBalanced(s).value
    ensures FirstBalanced(s).None? ==> last == -1
  {
    var count := 0;
    var i := 0;
    while i < |s|
      invariant 0 <= i <= |s|
      invariant count == Depth(s, i)
      invariant forall j :: 0 <= j < i ==> !ClosesAt(s, j)
    {
      if s[i] == '[' {
        count := count + 1;
      } else if s[i] == ']' {
        count := count - 1;
        if count == 0 {
          assert ClosesAt(s, i);
          return i;
        }
      }
      i := i + 1;
    }
    return -1;
  }

  lemma {:induction false} DepthPrefix(s: string, m: nat, n: nat)
    requires n <= m <= |s|
    ensures Depth(s[..m], n) == Depth(s, n)
    decreases n
  {
    if n > 0 {
      DepthPrefix(s, m, n - 1);
    }
  }

  lemma {:induction false} DepthPositiveBefore(s: string, n: nat)
    requires |s| > 0 && s[0] == '['
    requires 1 <= n <= |s|
    requires forall j :: 0 <= j < n - 1 ==> !ClosesAt(s, j)
    ensures Depth(s, n) > 0 || ClosesAt(s, n - 1)
    decreases n
  {
    if n > 1 {
      DepthPositiveBefore(s, n - 1);
    }
  }

  /**
   * On text that starts with `[`, the cut is a bracket-balanced array: it
   * ends with the `]` that brings the count to zero, and every shorter
   * non-empty prefix has a positive count. Brackets inside string literals
   * are counted like any other.
   */
  lemma CutIsBalanced(s: string)
    requires StartsAt(s, 0, "[") && FirstBalanced(s).Some?
    ensures var c := CutAtBalance(s);
      |c| > 1 && c[0] == '[' && c[|c| - 1] == ']' && Depth(c, |c|) == 0
      && forall n :: 1 <= n < |c| ==> Depth(c, n) > 0
  {
    var i := FirstBalanced(s).value;
    var c := s[..i + 1];
    assert s[0] == '[';
    assert Depth(s, 1) == 1;
    assert i > 0;
    DepthPrefix(s, i + 1, i + 1);
    forall n | 1 <= n < |c| ensures Depth(c, n) > 0 {
      DepthPrefix(s, i + 1, n);
      DepthPositiveBefore(s, n);
    }
  }

  /**
   * Counting again over the cut stops at its last character, so the second
   * counting pass that follows a fenced array leaves the text as it is.
   */
  lemma CutIdempotent(s: string)
    ensures CutAtBalance(CutAtBalance(s)) == CutAtBalance(s)
  {
    if FirstBalanced(s).Some? {
      var i := FirstBalanced(s).value;
      var c := s[..i + 1];
      forall j | 0 <= j <= i ensures ClosesAt(c, j) <==> ClosesAt(s, j) {
        DepthPrefix(s, i + 1, j + 1);
      }
      assert ClosesAt(c, i);
      assert FirstBalanced(c) == Some(i);
      assert c[..i + 1] == c;
    }
  }

  // ---------------------------------------------------------------------
  // The brace counter that rebuilds a truncated array
  // ---------------------------------------------------------------------

  /** The variables of the brace loop: completed objects, the accumulator `current_obj`, `brace_count`. */
  datatype BraceState = BraceState(objects: seq<string>, current: string, count: int)

  function BraceStep(st: BraceState, c: char): BraceState {
    var cur := st.current + [c];
    if c == '{' then BraceState(st.objects, cur, st.count + 1)
    else if c == '}' then
      if st.count - 1 == 0 then BraceState(st.objects + [cur], "", 0)
      else BraceState(st.objects, cur, st.count - 1)
    else BraceState(st.objects, cur, st.count)
  }

  /** The brace loop's state after reading all of `s`. */
  function BraceScan(s: string): BraceState
    decreases |s|
  {
    if |s| == 0 then BraceState([], "", 0)
    else BraceStep(BraceScan(s[..|s| - 1]), s[|s| - 1])
  }

  function Concat(parts: seq<string>): string
    decreases |parts|
  {
    if |parts| == 0 then "" else Concat(parts[..|parts| - 1]) + parts[|parts| - 1]
  }

  /** Every piece ends with the `}` that closed it. */
  predicate ClosedPieces(objects: seq<string>) {
    forall k :: 0 <= k < |objects| ==> |objects[k]| > 0 && objects[k][|objects[k]| - 1] == '}'
  }

  /** The pieces read so far, followed by the accumulator, spell out the text read so far. */
  predicate PartitionOf(st: BraceState, read: string) {
    Concat(st.objects) + st.current == read && ClosedPieces(st.objects)
  }

  lemma BraceStepPartition(st: BraceState, read: string, c: char)
    requires PartitionOf(st, read)
    ensures PartitionOf(BraceStep(st, c), read + [c])
  {
    var cur := st.current + [c];
    if c == '}' && st.count - 1 == 0 {
      var objs := st.objects + [cur];
      assert objs[..|objs| - 1] == st.objects;
      assert Concat(objs) == Concat(st.objects) + cur;
      assert ClosedPieces(objs) by {
        forall k | 0 <= k < |objs| ensures |objs[k]| > 0 && objs[k][|objs[k]| - 1] == '}' {
          if k < |st.objects| {
            assert objs[k] == st.objects[k];
          }
        }
      }
      assert BraceStep(st, c) == BraceState(objs, "", 0);
    } else {
      assert BraceStep(st, c).objects == st.objects && BraceStep(st, c).current == cur;
    }
  }

  /**
   * The brace loop cuts its input into consecutive pieces: the completed
   * objects followed by the unfinished accumulator give back the whole
   * text, and every completed object ends with the `}` that closed it.
   */
  lemma {:induction false} BraceScanPartition(s: string)
    ensures PartitionOf(BraceScan(s), s)
    decreases |s|
  {
    if |s| > 0 {
      var p := s[..|s| - 1];
      BraceScanPartition(p);
      BraceStepPartition(BraceScan(p), p, s[|s| - 1]);
      assert s == p + [s[|s| - 1]];
    }
  }

  /** The brace loop, collecting the completed objects. */
  method CollectObjects(s: string) returns (objects: seq<string>)
    ensures objects == BraceScan(s).objects
  {
    objects := [];
    var current := "";
    var count := 0;
    for i := 0 to |s|
      invariant BraceState(objects, current, count) == BraceScan(s[..i])
    {
      assert s[..i + 1][..i] == s[..i];
      current := current + [s[i]];
      if s[i] == '{' {
        count := count + 1;
      } else if s[i] == '}' {
        count := count - 1;
        if count == 0 {
          objects := objects + [current];
          current := "";
        }
      }
    }
    assert s[..|s|] == s;
  }

  /** The array rebuilt from the completed objects, or the text unchanged when there are none. */
  function Rebuilt(s: string): string {
    var objs := BraceScan(s).objects;
    if |objs| > 0 then "[" + Join(objs, ",") + "]" else s
  }

  // ---------------------------------------------------------------------
  // extract_json_from_response
  // ---------------------------------------------------------------------

  /** The text after the fence or greedy search, before the bracket repair. */
  function Located(response: string): string {
    var original := Strip(response);
    match FencedBlock(original)
    case Some(block) => if StartsAt(block, 0, "[") then CutAtBalance(block) else block
    case None => GreedySpan(original)
  }

  /** Dropping whatever precedes the first `[`, when the text does not start with one. */
  function FromFirstBracket(t: string): string {
    if StartsAt(t, 0, "[") then t
    else match FindFrom(t, "[", 0)
      case Some(i) => t[i..]
      case None => t
  }

  /** The bracket repair: the balanced prefix if there is one, else the rebuilt array. */
  function Repaired(t: string): string {
    if StartsAt(t, 0, "[") then
      match FirstBalanced(t)
      case Some(i) => if i > 0 then t[..i + 1] else Rebuilt(t)
      case None => Rebuilt(t)
    else t
  }

  /** The text handed to the first `json.loads`. */
  function Candidate(response: string): string {
    Repaired(FromFirstBracket(Located(response)))
  }

  /**
   * The second attempt after a decoding error: with more `[` than `]`, cut
   * after the last `}` (when it is not the first character) and close the
   * array.
   */
  function Retry(text: string, loads: string -> Option<JVal>): seq<JVal> {
    if CountChar(text, '[') > CountChar(text, ']') then
      match LastIndex(text, '}')
      case Some(b) =>
        if b > 0 then
          match loads(text[..b + 1] + "]")
          case Some(JList(xs)) => xs
          case _ => []
        else []
      case None => []
    else []
  }

  /**
   * `extract_json_from_response` with `json.loads` as a parameter: it maps
   * a text to the JSON value it denotes, or to nothing on a decoding error.
   */
  function ExtractJson(response: string, loads: string -> Option<JVal>): seq<JVal> {
    var text := Candidate(response);
    match loads(text)
    case Some(v) => if v.JList? then v.items else []
    case None => Retry(text, loads)
  }

  /** `xs` is the array decoded from a prefix of `text` ending in `}`, closed with `]`. */
  predicate RetriedFrom(text: string, loads: string -> Option<JVal>, xs: seq<JVal>) {
    exists b :: 0 < b < |text| && text[b] == '}' && loads(text[..b + 1] + "]") == Some(JList(xs))
  }

  /**
   * Only arrays come back: a decoded value that is not an array yields
   * nothing; a non-empty result is the array decoded from the candidate, or
   * from a prefix of it ending in `}` and closed with `]`, tried only after
   * the candidate failed to decode.
   */
  lemma ExtractJsonSpec(response: string, loads: string -> Option<JVal>)
    ensures var text := Candidate(response);
      (loads(text).Some? && !loads(text).value.JList? ==> ExtractJson(response, loads) == [])
      && (ExtractJson(response, loads) != [] ==>
            loads(text) == Some(JList(ExtractJson(response, loads)))
            || (loads(text).None? && RetriedFrom(text, loads, ExtractJson(response, loads))))
  {
    var text := Candidate(response);
    if loads(text).None? && ExtractJson(response, loads) != [] {
      var b := LastIndex(text, '}').value;
      assert loads(text[..b + 1] + "]") == Some(JList(ExtractJson(response, loads)));
    }
  }

  /**
   * A reply that is nothing but a bracket-balanced array, with no fence,
   * reaches `json.loads` unchanged.
   */
  lemma BareArrayUnchanged(s: string)
    requires FencedBlock(s).None? && Strip(s) == s
    requires |s| > 1 && s[0] == '[' && FirstBalanced(s) == Some(|s| - 1)
    ensures Candidate(s) == s
  {
    assert StartsAt(s, 0, "[");
    assert FindFrom(s, "[", 0) == Some(0);
    assert GreedySpan(s) == s[0..|s|];
    assert s[0..|s|] == s;
    assert s[..|s|] == s;
  }

  /** The candidate as the function computes it, with the two counting loops run as loops. */
  method CandidateText(response: string) returns (text: string)
    ensures text == Candidate(response)
  {
    var original := Strip(response);
    match FencedBlock(original) {
      case Some(block) =>
        text := block;
        if StartsAt(text, 0, "[") {
          var cut := ScanBrackets(text);
          if cut >= 0 {
            text := text[..cut + 1];
          }
        }
      case None =>
        text := GreedySpan(original);
    }
    assert text == Located(response);
    text := FromFirstBracket(text);
    ghost var from := text;
    if StartsAt(text, 0, "[") {
      var last := ScanBrackets(text);
      if last > 0 {
        text := text[..last + 1];
      } else {
        var objects := CollectObjects(text);
        if |objects| > 0 {
          text := "[" + Join(objects, ",") + "]";
        }
      }
    }
  }

  /** `extract_json_from_response`. */
  method ExtractJsonFromResponse(response: string, loads: string -> Option<JVal>) returns (repairs: seq<JVal>)
    ensures repairs == ExtractJson(response, loads)
  {
    var text := CandidateText(response);
    var parsed := loads(text);
    if parsed.Some? {
      if !parsed.value.JList? {
        return [];
      }
      return parsed.value.items;
    }
    assert ExtractJson(response, loads) == Retry(text, loads);
    repairs := [];
    if CountChar(text, '[') > CountChar(text, ']') {
      var lastBrace := LastIndex(text, '}');
      if lastBrace.Some? && lastBrace.value > 0 {
        var again := loads(text[..lastBrace.value + 1] + "]");
        if again.Some? && again.value.JList? {
          repairs := again.value.items;
        }
      }
    }
  }
}
