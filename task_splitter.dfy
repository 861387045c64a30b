/**
 * `DialogueParser.split_into_tasks`: cutting a week's transcript into at
 * most three `(task_name, task_text)` spans. The cascade tries, in order,
 * the primary task markers (three or more, then one or two), a looser
 * marker, paragraph breaks, and finally equal thirds.
 *
 * Every regular expression involved is modelled by a matcher written for
 * that one pattern. Each matcher's comment says why Python's backtracking
 * has a single outcome for it, so that the greedy reading is the match.
 */
module TaskSplitter {
  import opened Wrappers
  import opened Text

  /** One `(task_name, task_text)` pair. */
  datatype Task = Task(name: string, body: string)

  /** `f"T{n}"`. */
  function TaskName(n: nat): string {
    "T" + NatToString(n)
  }

  /** A name of the form "T" followed by decimal digits. */
  predicate IsTaskName(name: string) {
    |name| >= 2 && name[0] == 'T' && forall k :: 1 <= k < |name| ==> IsDigit(name[k])
  }

  // ---------------------------------------------------------------------
  // Matcher pieces shared by several patterns.
  // ---------------------------------------------------------------------

  /** The end of the first of `words` found at `p`, ignoring case (an alternation of literals). */
  function KeywordAt(t: string, p: nat, words: seq<string>): (r: Option<nat>)
    ensures r.Some? ==> p <= r.value <= |t|
    decreases |words|
  {
    if |words| == 0 then None
    else if StartsAtCI(t, p, words[0]) then Some(p + |words[0]|)
    else KeywordAt(t, p, words[1..])
  }

  /** The last line break in `t[a:b]`: where `\s*\n` ends once the greedy `\s*` has given characters back. */
  function LastNewline(t: string, a: nat, b: nat): (r: Option<nat>)
    requires a <= b <= |t|
    ensures r.Some? ==> a <= r.value < b && t[r.value] == '\n'
    decreases b - a
  {
    if a == b then None
    else if t[b - 1] == '\n' then Some(b - 1)
    else LastNewline(t, a, b - 1)
  }

  predicate NotAsciiLower(c: char) {
    !IsAsciiLower(c)
  }

  predicate IsColonOrDot(c: char) {
    c == ':' || c == '.'
  }

  // ---------------------------------------------------------------------
  // The primary marker
  //   (?:Task|Tarefa|Exercise|Exercício|Activity|Atividade)\s*
  //   (?:(\d+)|(one|two|three|1|2|3))[:\.]?\s*\n
  // under IGNORECASE. At most one keyword fits at a position; `\s*` and
  // `\d+` cannot give characters back (a space or digit would then stand
  // where a digit, ':', '.', or whitespace is needed); the digit
  // alternatives of the second group only repeat what `\d+` already
  // tried; and the final `\s*\n` ends after the last line break of the
  // whitespace run.
  // ---------------------------------------------------------------------

  const PrimaryKeywords: seq<string> := ["task", "tarefa", "exercise", "exerc\U{ED}cio", "activity", "atividade"]

  /** The task number of a marker: digits (group 1) or a word (group 2), with its value under `text_to_num`. */
  datatype MarkerNum = Digits(value: nat) | Word(value: nat)

  datatype Marker = Marker(start: nat, end: nat, num: MarkerNum)

  function NumberAt(t: string, q: nat): (r: Option<(MarkerNum, nat)>)
    requires q <= |t|
    ensures r.Some? ==> q < r.value.1 <= |t|
  {
    if q < |t| && IsDigit(t[q]) then
      var d := RunLength(t, q, IsDigit);
      Some((Digits(ParseNat(t[q..q + d])), q + d))
    else if StartsAtCI(t, q, "one") then Some((Word(1), q + 3))
    else if StartsAtCI(t, q, "two") then Some((Word(2), q + 3))
    else if StartsAtCI(t, q, "three") then Some((Word(3), q + 5))
    else None
  }

  /** The primary marker matched at `p`, ending just after a line break. */
  function PrimaryAt(t: string, p: nat): (r: Option<Marker>)
    ensures r.Some? ==> r.value.start == p < r.value.end <= |t| && t[r.value.end - 1] == '\n'
  {
    match KeywordAt(t, p, PrimaryKeywords)
    case None => None
    case Some(k) =>
      match MarkerTail(t, k)
      case None => None
      case Some(ne) => Some(Marker(p, ne.1, ne.0))
  }

  /** What follows the keyword: `\s*`, the number, `[:\.]?`, then `\s*\n`; the number and the end of the match. */
  function MarkerTail(t: string, k: nat): (r: Option<(MarkerNum, nat)>)
    requires k <= |t|
    ensures r.Some? ==> k < r.value.1 <= |t| && t[r.value.1 - 1] == '\n'
  {
    var q := k + RunLength(t, k, IsSpace);
    match NumberAt(t, q)
    case None => None
    case Some(nr) =>
      var r := nr.1;
      var c := if r < |t| && IsColonOrDot(t[r]) then r + 1 else r;
      match LastNewline(t, c, c + RunLength(t, c, IsSpace))
      case None => None
      case Some(e) => Some((nr.0, e + 1))
  }

  /** Markers in text order that do not overlap, all inside `[lo, hi)`. */
  predicate Ordered(ms: seq<Marker>, lo: nat, hi: nat) {
    (forall k :: 0 <= k < |ms| ==> lo <= ms[k].start < ms[k].end <= hi) &&
    (forall k :: 0 < k < |ms| ==> ms[k - 1].end <= ms[k].start)
  }

  /** `task_pattern.finditer(t)` from `from` on: each search resumes where the last match ended. */
  function PrimaryFrom(t: string, from: nat): (ms: seq<Marker>)
    ensures Ordered(ms, from, |t|)
    decreases |t| - from
  {
    if from >= |t| then []
    else
      match PrimaryAt(t, from)
      case Some(m) => [m] + PrimaryFrom(t, m.end)
      case None => PrimaryFrom(t, from + 1)
  }

  function PrimaryMarkers(t: string): (ms: seq<Marker>)
    ensures Ordered(ms, 0, |t|)
  {
    PrimaryFrom(t, 0)
  }

  // ---------------------------------------------------------------------
  // The header search `Week\s*\d+|#\d+` (IGNORECASE) before the first marker.
  // ---------------------------------------------------------------------

  function HeaderAt(s: string, p: nat): (r: Option<nat>)
    ensures r.Some? ==> p < r.value <= |s|
  {
    if StartsAtCI(s, p, "week") then
      var q := p + 4 + RunLength(s, p + 4, IsSpace);
      var d := RunLength(s, q, IsDigit);
      if d > 0 then Some(q + d) else None
    else if p < |s| && s[p] == '#' then
      var d := RunLength(s, p + 1, IsDigit);
      if d > 0 then Some(p + 1 + d) else None
    else None
  }

  /** `re.search(...)`: the end of the leftmost match, if any. */
  function SearchHeader(s: string, from: nat): (r: Option<nat>)
    ensures r.Some? ==> r.value <= |s|
    decreases |s| - from
  {
    if from >= |s| then None
    else
      match HeaderAt(s, from)
      case Some(e) => Some(e)
      case None => SearchHeader(s, from + 1)
  }

  // ---------------------------------------------------------------------
  // The clean-up substitutions, all anchored with `^` under MULTILINE:
  //   TaskLead        ^(?:Task|Tarefa)\s*(?:one|two|three|\d+)[:\.]?\s*   (IGNORECASE)
  //   TaskLeadDigits  ^(?:Task|Tarefa)\s*\d+[:\.]?\s*                     (IGNORECASE)
  //   WeekDash        ^Week\s*\d+\s*[-–]\s*                              (IGNORECASE)
  //   WeekGlued       ^Week\d+                                            (IGNORECASE)
  //   CapsHeading     ^[A-Z][a-z]+\s*\d+[:\.]\s*[A-Z][^a-z]*\n
  // In the first four, everything after the number is optional or greedy
  // with nothing after it to fail; in the last, only `[^a-z]*\n` backtracks,
  // to the last line break of the run.
  // ---------------------------------------------------------------------

  datatype Cleanup = TaskLead | TaskLeadDigits | WeekDash | WeekGlued | CapsHeading

  /** `(?:one|two|three|\d+)`, or `\d+` alone when `words` is false. */
  function LeadNumberAt(s: string, q: nat, words: bool): (r: Option<nat>)
    requires q <= |s|
    ensures r.Some? ==> q < r.value <= |s|
  {
    if words && StartsAtCI(s, q, "one") then Some(q + 3)
    else if words && StartsAtCI(s, q, "two") then Some(q + 3)
    else if words && StartsAtCI(s, q, "three") then Some(q + 5)
    else
      var d := RunLength(s, q, IsDigit);
      if d > 0 then Some(q + d) else None
  }

  function TaskLeadAt(s: string, p: nat, words: bool): (r: Option<nat>)
    ensures r.Some? ==> p < r.value <= |s|
  {
    match KeywordAt(s, p, ["task", "tarefa"])
    case None => None
    case Some(k) =>
      var q := k + RunLength(s, k, IsSpace);
      match LeadNumberAt(s, q, words)
      case None => None
      case Some(r) =>
        var c := if r < |s| && IsColonOrDot(s[r]) then r + 1 else r;
        Some(c + RunLength(s, c, IsSpace))
  }

  function WeekDashAt(s: string, p: nat): (r: Option<nat>)
    ensures r.Some? ==> p < r.value <= |s|
  {
    if !StartsAtCI(s, p, "week") then None
    else
      var q := p + 4 + RunLength(s, p + 4, IsSpace);
      var d := RunLength(s, q, IsDigit);
      var u := q + d + RunLength(s, q + d, IsSpace);
      if d > 0 && u < |s| && (s[u] == '-' || s[u] == '\U{2013}') then Some(u + 1 + RunLength(s, u + 1, IsSpace))
      else None
  }

  function WeekGluedAt(s: string, p: nat): (r: Option<nat>)
    ensures r.Some? ==> p < r.value <= |s|
  {
    if !StartsAtCI(s, p, "week") then None
    else
      var d := RunLength(s, p + 4, IsDigit);
      if d > 0 then Some(p + 4 + d) else None
  }

  function CapsHeadingAt(s: string, p: nat): (r: Option<nat>)
    ensures r.Some? ==> p < r.value <= |s|
  {
    if !(p < |s| && IsAsciiUpper(s[p])) then None
    else
      var l := RunLength(s, p + 1, IsAsciiLower);
      var q := p + 1 + l + RunLength(s, p + 1 + l, IsSpace);
      var d := RunLength(s, q, IsDigit);
      var r := q + d;
      if l > 0 && d > 0 && r < |s| && IsColonOrDot(s[r]) then
        var u := r + 1 + RunLength(s, r + 1, IsSpace);
        if u < |s| && IsAsciiUpper(s[u]) then
          match LastNewline(s, u + 1, u + 1 + RunLength(s, u + 1, NotAsciiLower))
          case None => None
          case Some(e) => Some(e + 1)
        else None
      else None
  }

  function CleanupAt(c: Cleanup, s: string, p: nat): (r: Option<nat>)
    ensures r.Some? ==> p < r.value <= |s|
  {
    match c
    case TaskLead => TaskLeadAt(s, p, true)
    case TaskLeadDigits => TaskLeadAt(s, p, false)
    case WeekDash => WeekDashAt(s, p)
    case WeekGlued => WeekGluedAt(s, p)
    case CapsHeading => CapsHeadingAt(s, p)
  }

  /** `^` under MULTILINE: the start of the text or just after a line break. */
  predicate LineStart(s: string, i: nat) {
    i == 0 || (0 < i <= |s| && s[i - 1] == '\n')
  }

  /** `re.sub(pattern, '', s[i:], flags=re.MULTILINE)`: every match at a line start is deleted. */
  function SubLines(c: Cleanup, s: string, i: nat): string
    requires i <= |s|
    decreases |s| - i
  {
    if i == |s| then ""
    else
      match (if LineStart(s, i) then CleanupAt(c, s, i) else None)
      case Some(e) => SubLines(c, s, e)
      case None => [s[i]] + SubLines(c, s, i + 1)
  }

  /** The four substitutions applied to a span in the three-or-more branch. */
  function CleanSpan(s: string): string {
    var a := SubLines(TaskLead, s, 0);
    var b := SubLines(WeekDash, a, 0);
    var c := SubLines(WeekGlued, b, 0);
    SubLines(CapsHeading, c, 0)
  }

  // ---------------------------------------------------------------------
  // The looser marker `(?:Task|Tarefa)\s*[123][:\.]` (IGNORECASE).
  // ---------------------------------------------------------------------

  function AltAt(t: string, p: nat): (r: Option<nat>)
    ensures r.Some? ==> p < r.value <= |t|
  {
    match KeywordAt(t, p, ["task", "tarefa"])
    case None => None
    case Some(k) =>
      var q := k + RunLength(t, k, IsSpace);
      if q + 1 < |t| && '1' <= t[q] <= '3' && IsColonOrDot(t[q + 1]) then Some(q + 2) else None
  }

  /** The start positions of `alt_pattern.finditer(t)` from `from` on, strictly increasing. */
  function AltFrom(t: string, from: nat): (r: seq<nat>)
    ensures forall k :: 0 <= k < |r| ==> from <= r[k] < |t|
    ensures forall k :: 0 < k < |r| ==> r[k - 1] < r[k]
    decreases |t| - from
  {
    if from >= |t| then []
    else
      match AltAt(t, from)
      case Some(e) => [from] + AltFrom(t, e)
      case None => AltFrom(t, from + 1)
  }

  // ---------------------------------------------------------------------
  // The paragraph split `re.split(r'\n\s*\n{2,}|\n(?=[A-Z][a-z]{10,})', t)`.
  // In the first alternative `\s*` gives characters back until two line
  // breaks follow, so the separator ends after the last pair of adjacent
  // line breaks of the whitespace run; the second is a single line break
  // before a capital and ten lower-case ASCII letters.
  // ---------------------------------------------------------------------

  /** The last `r` in `[a, b - 1)` with `t[r] == t[r + 1] == '\n'`. */
  function LastPair(t: string, a: nat, b: nat): (r: Option<nat>)
    requires a <= b <= |t|
    ensures r.Some? ==> a <= r.value && r.value + 2 <= b
    decreases b - a
  {
    if b < a + 2 then None
    else if t[b - 2] == '\n' && t[b - 1] == '\n' then Some(b - 2)
    else LastPair(t, a, b - 1)
  }

  function SeparatorAt(t: string, p: nat): (r: Option<nat>)
    ensures r.Some? ==> p < r.value <= |t|
  {
    if !(p < |t| && t[p] == '\n') then None
    else
      match LastPair(t, p + 1, p + 1 + RunLength(t, p + 1, IsSpace))
      case Some(r) => Some(r + 2)
      case None =>
        if p + 1 < |t| && IsAsciiUpper(t[p + 1]) && RunLength(t, p + 2, IsAsciiLower) >= 10 then Some(p + 1)
        else None
  }

  /** The pieces of `t[last:]` between separators, the search resuming at `i`. */
  function Pieces(t: string, last: nat, i: nat): (r: seq<string>)
    requires last <= i <= |t|
    ensures |r| >= 1
    decreases |t| - i
  {
    if i == |t| then [t[last..]]
    else
      match SeparatorAt(t, i)
      case Some(e) => [t[last..i]] + Pieces(t, e, e)
      case None => Pieces(t, last, i + 1)
  }

  /** `[s.strip() for s in pieces if len(s.strip()) > 100]`. */
  function LongStripped(pieces: seq<string>): seq<string>
    decreases |pieces|
  {
    if |pieces| == 0 then []
    else
      var s := Strip(pieces[|pieces| - 1]);
      LongStripped(pieces[..|pieces| - 1]) + (if |s| > 100 then [s] else [])
  }

  function Sections(t: string): seq<string> {
    LongStripped(Pieces(t, 0, 0))
  }

  // ---------------------------------------------------------------------
  // The branches, as the specification of the loops below.
  // ---------------------------------------------------------------------

  /** The candidates whose text is longer than `min`, in order (`if len(task_text) > min: append`). */
  function KeepLong(cands: seq<Task>, min: nat): seq<Task>
    decreases |cands|
  {
    if |cands| == 0 then []
    else
      var c := cands[|cands| - 1];
      KeepLong(cands[..|cands| - 1], min) + (if |c.body| > min then [c] else [])
  }

  /** Where span `i` starts with three or more markers: after a leading week header, or at the previous marker. */
  function ManyStart(t: string, ms: seq<Marker>, i: nat): (s: nat)
    requires Ordered(ms, 0, |t|) && i < |ms|
    ensures s <= ms[i].start
  {
    if i == 0 then
      match SearchHeader(t[..ms[0].start], 0)
      case Some(e) => e
      case None => 0
    else ms[i - 1].start
  }

  /** Span `i` runs up to marker `i` and carries marker `i`'s number. */
  function ManyCandidate(t: string, ms: seq<Marker>, i: nat): Task
    requires Ordered(ms, 0, |t|) && i < |ms|
  {
    Task(TaskName(ms[i].num.value), CleanSpan(Strip(t[ManyStart(t, ms, i)..ms[i].start])))
  }

  function ManyCandidates(t: string, ms: seq<Marker>): seq<Task>
    requires Ordered(ms, 0, |t|)
  {
    seq(|ms|, i requires 0 <= i < |ms| => ManyCandidate(t, ms, i))
  }

  /** The final span, from the last marker to the end. */
  function ManyFinal(t: string, ms: seq<Marker>): Task
    requires Ordered(ms, 0, |t|) && |ms| > 0
  {
    var last := ms[|ms| - 1];
    Task(TaskName(if |ms| < 3 then last.num.value else 3), SubLines(TaskLeadDigits, Strip(t[last.start..]), 0))
  }

  function ManyTasks(t: string, ms: seq<Marker>): seq<Task>
    requires Ordered(ms, 0, |t|) && |ms| > 0
  {
    KeepLong(ManyCandidates(t, ms), 50) + KeepLong([ManyFinal(t, ms)], 50)
  }

  /** With one or two markers, span `i` runs from marker `i - 1` (or the start) to marker `i + 1` (or the end). */
  function FewBounds(t: string, ms: seq<Marker>, i: nat): (b: (nat, nat))
    requires Ordered(ms, 0, |t|) && i < |ms|
    ensures b.0 <= b.1 <= |t|
  {
    assert 0 < i < |ms| - 1 ==> ms[i - 1].end <= ms[i].start && ms[i].end <= ms[i + 1].start;
    (if i > 0 then ms[i - 1].start else 0, if i < |ms| - 1 then ms[i + 1].start else |t|)
  }

  function FewCandidate(t: string, ms: seq<Marker>, i: nat): Task
    requires Ordered(ms, 0, |t|) && i < |ms|
  {
    var b := FewBounds(t, ms, i);
    Task(TaskName(ms[i].num.value), SubLines(TaskLeadDigits, Strip(t[b.0..b.1]), 0))
  }

  function FewTasks(t: string, ms: seq<Marker>): seq<Task>
    requires Ordered(ms, 0, |t|)
  {
    KeepLong(seq(|ms|, i requires 0 <= i < |ms| => FewCandidate(t, ms, i)), 50)
  }

  /** Some marker carries a worded number, which `int(m.group(1))` rejects. */
  predicate HasWordedMarker(ms: seq<Marker>) {
    exists k :: 0 <= k < |ms| && ms[k].num.Word?
  }

  /** The looser markers: span `i` runs from marker `i - 1` (marker 0 for the first) to marker `i + 1`. */
  predicate Increasing(starts: seq<nat>, n: nat) {
    (forall k :: 0 <= k < |starts| ==> starts[k] < n) && (forall k :: 0 < k < |starts| ==> starts[k - 1] < starts[k])
  }

  function AltBounds(t: string, starts: seq<nat>, i: nat): (b: (nat, nat))
    requires Increasing(starts, |t|) && i < |starts|
    ensures b.0 <= b.1 <= |t|
  {
    assert 0 < i < |starts| - 1 ==> starts[i - 1] < starts[i] < starts[i + 1];
    (if i == 0 then starts[0] else starts[i - 1], if i < |starts| - 1 then starts[i + 1] else |t|)
  }

  function AltTasks(t: string, starts: seq<nat>): seq<Task>
    requires Increasing(starts, |t|)
  {
    KeepLong(seq(|starts|, i requires 0 <= i < |starts| => var b := AltBounds(t, starts, i); Task(TaskName(i + 1), Strip(t[b.0..b.1]))), 50)
  }

  /** `[(f"T{i}", s) for i, s in enumerate(sections, 1)]`. */
  function Named(sections: seq<string>): seq<Task> {
    seq(|sections|, i requires 0 <= i < |sections| => Task(TaskName(i + 1), sections[i]))
  }

  /** Chunk `i` of three: `i * (n // 3)` up to `(i + 1) * (n // 3)`, the last one up to `n`. */
  function ThirdBounds(n: nat, i: nat): (b: (nat, nat))
    requires i < 3
    ensures b.0 <= b.1 <= n
  {
    var c := n / 3;
    if i == 0 then (0, c) else if i == 1 then (c, 2 * c) else (2 * c, n)
  }

  function ThirdTasks(t: string): seq<Task> {
    KeepLong(seq(3, i requires 0 <= i < 3 => var b := ThirdBounds(|t|, i); Task(TaskName(i + 1), Strip(t[b.0..b.1]))), 50)
  }

  function Truncate(tasks: seq<Task>): (r: seq<Task>) {
    if |tasks| > 3 then tasks[..3] else tasks
  }

  /** What `split_into_tasks` returns, or the exception it raises. */
  function SplitTasks(t: string): Result<seq<Task>, Exception> {
    var ms := PrimaryMarkers(t);
    if |ms| >= 3 then Ok(Truncate(ManyTasks(t, ms)))
    else if |ms| > 0 then
      if HasWordedMarker(ms) then Err(TypeError) else Ok(Truncate(FewTasks(t, ms)))
    else
      var starts := AltFrom(t, 0);
      if |starts| >= 2 then Ok(Truncate(AltTasks(t, starts)))
      else
        var sections := Sections(t);
        if |sections| >= 3 then Ok(Truncate(Named(sections[..3])))
        else if |sections| > 0 then Ok(Truncate(Named(sections)))
        else Ok(Truncate(ThirdTasks(t)))
  }

  // ---------------------------------------------------------------------
  // The loops.
  // ---------------------------------------------------------------------

  lemma KeepLongSnoc(cands: seq<Task>, i: nat, min: nat)
    requires i < |cands|
    ensures KeepLong(cands[..i + 1], min) == KeepLong(cands[..i], min) + (if |cands[i].body| > min then [cands[i]] else [])
  {
    assert cands[..i + 1][..i] == cands[..i];
  }

  /** Three or more markers: one span per marker, then the final span. */
  method SplitMany(text: string, ms: seq<Marker>) returns (tasks: seq<Task>)
    requires Ordered(ms, 0, |text|) && |ms| >= 3
    ensures tasks == ManyTasks(text, ms)
  {
    tasks := [];
    ghost var cands := ManyCandidates(text, ms);
    var i := 0;
    while i < |ms|
      invariant 0 <= i <= |ms|
      invariant tasks == KeepLong(cands[..i], 50)
    {
      var startPos := 0;
      if i == 0 {
        var headerEnd := SearchHeader(text[..ms[0].start], 0);
        if headerEnd.Some? {
          startPos := headerEnd.value;
        }
      } else {
        startPos := ms[i - 1].start;
      }
      var taskText := CleanSpan(Strip(text[startPos..ms[i].start]));
      assert cands[i] == Task(TaskName(ms[i].num.value), taskText);
      KeepLongSnoc(cands, i, 50);
      if |taskText| > 50 {
        tasks := tasks + [Task(TaskName(ms[i].num.value), taskText)];
      }
      i := i + 1;
    }
    assert cands[..i] == cands;
    var last := ms[|ms| - 1];
    var finalText := SubLines(TaskLeadDigits, Strip(text[last.start..]), 0);
    if |finalText| > 50 {
      var finalNum := if |ms| < 3 then last.num.value else 3;
      tasks := tasks + [Task(TaskName(finalNum), finalText)];
    }
  }

  /** One or two markers: each span reaches from the previous marker to the next one. */
  method SplitFew(text: string, ms: seq<Marker>) returns (tasks: seq<Task>)
    requires Ordered(ms, 0, |text|)
    ensures tasks == FewTasks(text, ms)
  {
    tasks := [];
    ghost var cands := seq(|ms|, i requires 0 <= i < |ms| => FewCandidate(text, ms, i));
    var i := 0;
    while i < |ms|
      invariant 0 <= i <= |ms|
      invariant tasks == KeepLong(cands[..i], 50)
    {
      var startPos := if i > 0 then ms[i - 1].start else 0;
      var endPos := if i < |ms| - 1 then ms[i + 1].start else |text|;
      var taskText := SubLines(TaskLeadDigits, Strip(text[startPos..endPos]), 0);
      KeepLongSnoc(cands, i, 50);
      if |taskText| > 50 {
        tasks := tasks + [Task(TaskName(ms[i].num.value), taskText)];
      }
      i := i + 1;
    }
    assert cands[..i] == cands;
  }

  /** Two or more looser markers, numbered by position. */
  method SplitAlt(text: string, starts: seq<nat>) returns (tasks: seq<Task>)
    requires Increasing(starts, |text|)
    ensures tasks == AltTasks(text, starts)
  {
    tasks := [];
    ghost var cands := seq(|starts|, i requires 0 <= i < |starts| => var b := AltBounds(text, starts, i); Task(TaskName(i + 1), Strip(text[b.0..b.1])));
    var i := 0;
    while i < |starts|
      invariant 0 <= i <= |starts|
      invariant tasks == KeepLong(cands[..i], 50)
    {
      var start := if i == 0 then starts[0] else starts[i - 1];
      var end := if i < |starts| - 1 then starts[i + 1] else |text|;
      var taskText := Strip(text[start..end]);
      KeepLongSnoc(cands, i, 50);
      if |taskText| > 50 {
        tasks := tasks + [Task(TaskName(i + 1), taskText)];
      }
      i := i + 1;
    }
    assert cands[..i] == cands;
  }

  /** The sections, named T1, T2, ... in order. */
  method NameSections(sections: seq<string>) returns (tasks: seq<Task>)
    ensures tasks == Named(sections)
  {
    tasks := [];
    var i := 0;
    while i < |sections|
      invariant 0 <= i <= |sections|
      invariant tasks == Named(sections[..i])
    {
      tasks := tasks + [Task(TaskName(i + 1), sections[i])];
      i := i + 1;
    }
    assert sections[..i] == sections;
  }

  /** The last resort: three equal chunks. */
  method SplitThirds(text: string) returns (tasks: seq<Task>)
    ensures tasks == ThirdTasks(text)
  {
    tasks := [];
    ghost var cands := seq(3, i requires 0 <= i < 3 => var b := ThirdBounds(|text|, i); Task(TaskName(i + 1), Strip(text[b.0..b.1])));
    var textLen := |text|;
    var chunkSize := textLen / 3;
    var i := 0;
    while i < 3
      invariant 0 <= i <= 3
      invariant tasks == KeepLong(cands[..i], 50)
    {
      var start := i * chunkSize;
      var end := if i < 2 then (i + 1) * chunkSize else textLen;
      assert (start, end) == ThirdBounds(textLen, i);
      var taskText := Strip(text[start..end]);
      KeepLongSnoc(cands, i, 50);
      if |taskText| > 50 {
        tasks := tasks + [Task(TaskName(i + 1), taskText)];
      }
      i := i + 1;
    }
    assert cands[..i] == cands;
  }

  /** `DialogueParser.split_into_tasks`; the week number it takes is not used. */
  method SplitIntoTasks(text: string, weekNum: int) returns (r: Result<seq<Task>, Exception>)
    ensures r == SplitTasks(text)
  {
    var tasks: seq<Task>;
    var taskMatches := PrimaryMarkers(text);
    if |taskMatches| >= 3 {
      tasks := SplitMany(text, taskMatches);
    } else if |taskMatches| > 0 {
      if HasWordedMarker(taskMatches) {
        return Err(TypeError);
      }
      tasks := SplitFew(text, taskMatches);
    } else {
      var altMatches := AltFrom(text, 0);
      if |altMatches| >= 2 {
        tasks := SplitAlt(text, altMatches);
      } else {
        var sections := Sections(text);
        if |sections| >= 3 {
          tasks := NameSections(sections[..3]);
        } else if |sections| > 0 {
          tasks := NameSections(sections);
        } else {
          tasks := SplitThirds(text);
        }
      }
    }
    if |tasks| > 3 {
      tasks := tasks[..3];
    }
    r := Ok(tasks);
  }

  // ---------------------------------------------------------------------
  // Properties.
  // ---------------------------------------------------------------------

  lemma TaskNameShape(n: nat)
    ensures IsTaskName(TaskName(n))
  {
    var d := NatToString(n);
    assert forall k :: 1 <= k < |TaskName(n)| ==> TaskName(n)[k] == d[k - 1];
  }

  /** A task as every branch emits it: a "T<digits>" name and a text longer than `min`. */
  predicate GoodTask(x: Task, min: nat) {
    IsTaskName(x.name) && |x.body| > min
  }

  /**
   * The length filter keeps exactly the candidates whose text is longer than
   * `min`, in order: each kept task is a candidate, and a long candidate is kept.
   */
  lemma {:induction false} KeepLongSpec(cands: seq<Task>, min: nat)
    ensures |KeepLong(cands, min)| <= |cands|
    ensures forall x :: x in KeepLong(cands, min) ==> x in cands && |x.body| > min
    ensures forall x :: x in cands && |x.body| > min ==> x in KeepLong(cands, min)
    decreases |cands|
  {
    if |cands| > 0 {
      var init := cands[..|cands| - 1];
      KeepLongSpec(init, min);
      assert cands == init + [cands[|cands| - 1]];
    }
  }

  lemma KeepLongGood(cands: seq<Task>, min: nat)
    requires forall k :: 0 <= k < |cands| ==> IsTaskName(cands[k].name)
    ensures forall k :: 0 <= k < |KeepLong(cands, min)| ==> GoodTask(KeepLong(cands, min)[k], min)
  {
    KeepLongSpec(cands, min);
    forall k | 0 <= k < |KeepLong(cands, min)| ensures GoodTask(KeepLong(cands, min)[k], min) {
      var x := KeepLong(cands, min)[k];
      assert x in KeepLong(cands, min);
      var j :| 0 <= j < |cands| && cands[j] == x;
    }
  }

  /** Every section is a stripped piece of more than 100 characters. */
  lemma {:induction false} LongStrippedSpec(pieces: seq<string>)
    ensures forall k :: 0 <= k < |LongStripped(pieces)| ==>
      |LongStripped(pieces)[k]| > 100 && exists j :: 0 <= j < |pieces| && LongStripped(pieces)[k] == Strip(pieces[j])
    decreases |pieces|
  {
    if |pieces| > 0 {
      var init := pieces[..|pieces| - 1];
      LongStrippedSpec(init);
      var r := LongStripped(pieces);
      forall k | 0 <= k < |r|
        ensures |r[k]| > 100 && exists j :: 0 <= j < |pieces| && r[k] == Strip(pieces[j])
      {
        if k < |LongStripped(init)| {
          var j :| 0 <= j < |init| && LongStripped(init)[k] == Strip(init[j]);
          assert r[k] == Strip(pieces[j]);
        } else {
          assert r[k] == Strip(pieces[|pieces| - 1]);
        }
      }
    }
  }

  lemma NamedGood(sections: seq<string>, min: nat)
    requires forall k :: 0 <= k < |sections| ==> |sections[k]| > min
    ensures forall k :: 0 <= k < |Named(sections)| ==> GoodTask(Named(sections)[k], min)
  {
    forall k | 0 <= k < |sections| ensures GoodTask(Named(sections)[k], min) {
      TaskNameShape(k + 1);
    }
  }

  lemma TruncateGood(tasks: seq<Task>, min: nat)
    requires forall k :: 0 <= k < |tasks| ==> GoodTask(tasks[k], min)
    ensures |Truncate(tasks)| <= 3
    ensures forall k :: 0 <= k < |Truncate(tasks)| ==> GoodTask(Truncate(tasks)[k], min)
  {
  }

  lemma ManyTasksGood(t: string, ms: seq<Marker>)
    requires Ordered(ms, 0, |t|) && |ms| > 0
    ensures forall k :: 0 <= k < |ManyTasks(t, ms)| ==> GoodTask(ManyTasks(t, ms)[k], 50)
  {
    var cands := ManyCandidates(t, ms);
    forall k | 0 <= k < |cands| ensures IsTaskName(cands[k].name) {
      TaskNameShape(ms[k].num.value);
    }
    KeepLongGood(cands, 50);
    var last := ms[|ms| - 1];
    TaskNameShape(if |ms| < 3 then last.num.value else 3);
    KeepLongGood([ManyFinal(t, ms)], 50);
  }

  lemma FewTasksGood(t: string, ms: seq<Marker>)
    requires Ordered(ms, 0, |t|)
    ensures forall k :: 0 <= k < |FewTasks(t, ms)| ==> GoodTask(FewTasks(t, ms)[k], 50)
  {
    var cands := seq(|ms|, i requires 0 <= i < |ms| => FewCandidate(t, ms, i));
    forall k | 0 <= k < |cands| ensures IsTaskName(cands[k].name) {
      TaskNameShape(ms[k].num.value);
    }
    KeepLongGood(cands, 50);
  }

  lemma AltTasksGood(t: string, starts: seq<nat>)
    requires Increasing(starts, |t|)
    ensures forall k :: 0 <= k < |AltTasks(t, starts)| ==> GoodTask(AltTasks(t, starts)[k], 50)
  {
    var cands := seq(|starts|, i requires 0 <= i < |starts| => var b := AltBounds(t, starts, i); Task(TaskName(i + 1), Strip(t[b.0..b.1])));
    forall k | 0 <= k < |cands| ensures IsTaskName(cands[k].name) {
      TaskNameShape(k + 1);
    }
    KeepLongGood(cands, 50);
  }

  lemma ThirdTasksGood(t: string)
    ensures forall k :: 0 <= k < |ThirdTasks(t)| ==> GoodTask(ThirdTasks(t)[k], 50)
  {
    var cands := seq(3, i requires 0 <= i < 3 => var b := ThirdBounds(|t|, i); Task(TaskName(i + 1), Strip(t[b.0..b.1])));
    forall k | 0 <= k < 3 ensures IsTaskName(cands[k].name) {
      TaskNameShape(k + 1);
    }
    KeepLongGood(cands, 50);
  }

  /**
   * `split_into_tasks` returns at most three tasks, each named "T<digits>"
   * with a text longer than 50 characters; in the paragraph fallback each
   * text is also longer than 100 characters.
   */
  lemma SplitTasksBounds(t: string)
    ensures SplitTasks(t).Ok? ==> |SplitTasks(t).value| <= 3
    ensures SplitTasks(t).Ok? ==> forall k :: 0 <= k < |SplitTasks(t).value| ==> GoodTask(SplitTasks(t).value[k], 50)
    ensures PrimaryMarkers(t) == [] && |AltFrom(t, 0)| < 2 && Sections(t) != [] ==>
      forall k :: 0 <= k < |SplitTasks(t).value| ==> GoodTask(SplitTasks(t).value[k], 100)
  {
    var ms := PrimaryMarkers(t);
    if |ms| >= 3 {
      ManyTasksGood(t, ms);
      TruncateGood(ManyTasks(t, ms), 50);
    } else if |ms| > 0 {
      FewTasksGood(t, ms);
      TruncateGood(FewTasks(t, ms), 50);
    } else {
      var starts := AltFrom(t, 0);
      if |starts| >= 2 {
        AltTasksGood(t, starts);
        TruncateGood(AltTasks(t, starts), 50);
      } else {
        var sections := Sections(t);
        LongStrippedSpec(Pieces(t, 0, 0));
        if |sections| >= 3 {
          NamedGood(sections[..3], 100);
          NamedGood(sections[..3], 50);
          TruncateGood(Named(sections[..3]), 50);
          TruncateGood(Named(sections[..3]), 100);
        } else if |sections| > 0 {
          NamedGood(sections, 100);
          NamedGood(sections, 50);
          TruncateGood(Named(sections), 50);
          TruncateGood(Named(sections), 100);
        } else {
          ThirdTasksGood(t);
          TruncateGood(ThirdTasks(t), 50);
        }
      }
    }
  }

  /** The call raises exactly when there are one or two primary markers and one of them is worded. */
  lemma SplitTasksError(t: string)
    ensures SplitTasks(t).Err? <==> 1 <= |PrimaryMarkers(t)| <= 2 && HasWordedMarker(PrimaryMarkers(t))
    ensures SplitTasks(t).Err? ==> SplitTasks(t).error == TypeError
  {
  }

  /**
   * With three or more markers the span labelled with marker `i`'s number
   * is cut from marker `i - 1` up to marker `i`: it opens with the whole of
   * marker `i - 1` and does not reach marker `i`. The final span is always
   * labelled "T3".
   */
  lemma ManySpansLabelledLate(t: string, ms: seq<Marker>, i: nat)
    requires Ordered(ms, 0, |t|) && |ms| >= 3 && 0 < i < |ms|
    ensures ManyCandidate(t, ms, i).name == TaskName(ms[i].num.value)
    ensures ManyStart(t, ms, i) == ms[i - 1].start
    ensures ms[i - 1].end <= ms[i].start
    ensures t[ManyStart(t, ms, i)..ms[i].start][..ms[i - 1].end - ms[i - 1].start] == t[ms[i - 1].start..ms[i - 1].end]
    ensures ManyFinal(t, ms).name == "T3"
  {
    assert NatToString(3) == "3";
  }

  /**
   * With two digit markers both spans contain the whole text between the
   * markers, marker 0 included: neighbouring spans overlap.
   */
  lemma FewSpansOverlap(t: string, ms: seq<Marker>)
    requires Ordered(ms, 0, |t|) && |ms| == 2
    ensures FewBounds(t, ms, 0) == (0, ms[1].start)
    ensures FewBounds(t, ms, 1) == (ms[0].start, |t|)
    ensures FewBounds(t, ms, 1).0 < ms[0].end <= FewBounds(t, ms, 0).1
  {
  }

  /** The three chunks tile the text: sizes `n // 3`, `n // 3` and the rest. */
  lemma ThirdsTile(n: nat)
    ensures ThirdBounds(n, 0).0 == 0 && ThirdBounds(n, 2).1 == n
    ensures ThirdBounds(n, 0).1 == ThirdBounds(n, 1).0 && ThirdBounds(n, 1).1 == ThirdBounds(n, 2).0
    ensures ThirdBounds(n, 0).1 - ThirdBounds(n, 0).0 == n / 3 && ThirdBounds(n, 1).1 - ThirdBounds(n, 1).0 == n / 3
  {
  }

  /** Without any separator the split gives the whole rest of the text as its one piece. */
  lemma {:induction false} PiecesNoSeparator(t: string, last: nat, i: nat)
    requires last <= i <= |t|
    requires forall p :: i <= p < |t| ==> SeparatorAt(t, p).None?
    ensures Pieces(t, last, i) == [t[last..]]
    decreases |t| - i
  {
    if i < |t| {
      PiecesNoSeparator(t, last, i + 1);
    }
  }

  /** Without a separator, a text over 100 characters once stripped is one section. */
  lemma OneSection(t: string)
    requires forall p :: 0 <= p < |t| ==> SeparatorAt(t, p).None?
    requires |Strip(t)| > 100
    ensures Sections(t) == [Strip(t)]
  {
    PiecesNoSeparator(t, 0, 0);
    assert t[0..] == t;
    assert [t][..0] == [];
    assert LongStripped([t]) == LongStripped([]) + [Strip(t)];
  }

  /**
   * A text without markers, paragraph breaks or capitalised long words
   * after a line break, and over 100 characters once stripped, comes back
   * as one task.
   */
  lemma NoBreakOneSpan(t: string)
    requires PrimaryMarkers(t) == [] && |AltFrom(t, 0)| < 2
    requires forall p :: 0 <= p < |t| ==> SeparatorAt(t, p).None?
    requires |Strip(t)| > 100
    ensures SplitTasks(t) == Ok([Task("T1", Strip(t))])
  {
    OneSection(t);
    assert TaskName(1) == "T1" by {
      assert NatToString(1) == "1";
    }
    assert Named([Strip(t)]) == [Task("T1", Strip(t))];
    assert Truncate([Task("T1", Strip(t))]) == [Task("T1", Strip(t))];
  }

  /** A marker need not start its line. */
  lemma MidLineMarker()
    ensures PrimaryAt("See Task 2:\n", 4) == Some(Marker(4, 12, Digits(2)))
  {
    var t := "See Task 2:\n";
    assert KeywordAt(t, 4, PrimaryKeywords) == Some(8);
    MidLineTail();
  }

  lemma MidLineTail()
    ensures MarkerTail("See Task 2:\n", 8) == Some((Digits(2), 12))
  {
    var t := "See Task 2:\n";
    assert RunLength(t, 8, IsSpace) == 1;
    assert NumberAt(t, 9) == Some((Digits(2), 10)) by {
      assert RunLength(t, 9, IsDigit) == 1;
      assert t[9..10] == "2";
      assert "2"[..0] == "";
      assert ParseNat("2") == 2;
    }
    assert RunLength(t, 11, IsSpace) == 1;
  }

  /** Without a line break after it, "Task 1: hi" is not a primary marker. */
  lemma MarkerNeedsLineBreak()
    ensures PrimaryAt("Task 1: hi", 0) == None
  {
    var t := "Task 1: hi";
    assert KeywordAt(t, 0, PrimaryKeywords) == Some(4);
    NoLineBreakTail();
  }

  lemma NoLineBreakTail()
    ensures MarkerTail("Task 1: hi", 4) == None
  {
    var t := "Task 1: hi";
    assert RunLength(t, 4, IsSpace) == 1;
    assert NumberAt(t, 5).Some? && NumberAt(t, 5).value.1 == 6 by {
      assert RunLength(t, 5, IsDigit) == 1;
    }
    assert RunLength(t, 7, IsSpace) == 1;
    assert LastNewline(t, 7, 8) == None;
  }
}
