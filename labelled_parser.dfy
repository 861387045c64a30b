/**
 * `DialogueParser.parse_week1_week2` and `DialogueParser.parse_week3`: the
 * extractors for transcripts whose turns are introduced by speaker labels.
 *
 * Both run one `re.finditer` over the text with the pattern
 *   (LEARNER COLON \s* | BOT COLON \s*) (.+?) (?=\n(?:LEARNER COLON | BOT COLON | $))
 * under IGNORECASE and DOTALL, and then decide the speaker from the label
 * group with a case-sensitive substring test. The two conventions differ
 * in their labels, in the colons they accept and in whether the whitespace
 * after the colon is part of the label group.
 */
module LabelledParser {
  import opened Wrappers
  import opened Text
  import opened Normalizer
  import opened Dialogue

  datatype LabelSet = LabelSet(learner: string, bot: string, colons: set<char>, spaceInLabelGroup: bool)

  /** Week 1 and week 2: English labels, ASCII or full-width colon. */
  const English := LabelSet("You said", "English Conversational Partner said", {':', '\U{FF1A}'}, true)

  /** Week 3: Portuguese learner label, ASCII colon only. */
  const Portuguese := LabelSet("Voc\U{EA} disse", "English Conversational Partner disse", {':'}, false)

  function LabelOf(sp: Speaker, L: LabelSet): string {
    if sp == Learner then L.learner else L.bot
  }

  /**
   * The end of `LABEL COLON` matched case-insensitively at `p`, the learner
   * alternative tried first.
   */
  function LabelAt(t: string, p: nat, L: LabelSet): (r: Option<nat>)
    ensures r.Some? ==> p < r.value <= |t|
  {
    var n1 := |L.learner|;
    var n2 := |L.bot|;
    if StartsAtCI(t, p, L.learner) && p + n1 < |t| && t[p + n1] in L.colons then Some(p + n1 + 1)
    else if StartsAtCI(t, p, L.bot) && p + n2 < |t| && t[p + n2] in L.colons then Some(p + n2 + 1)
    else None
  }

  /** `$` without MULTILINE: the end of the text, or just before a final line break. */
  predicate Dollar(t: string, p: nat) {
    p == |t| || (p + 1 == |t| && t[p] == '\n')
  }

  /** The lookahead `(?=\n(?:LEARNER COLON | BOT COLON | $))` holds at `e`. */
  predicate Lookahead(t: string, e: nat, L: LabelSet) {
    e < |t| && t[e] == '\n' && (LabelAt(t, e + 1, L).Some? || Dollar(t, e + 1))
  }

  /** The lazy `(.+?)`: the first position from `from` on where the lookahead holds. */
  function FirstEnd(t: string, from: nat, L: LabelSet): (r: Option<nat>)
    ensures r.Some? ==> from <= r.value < |t| && Lookahead(t, r.value, L)
    decreases |t| - from
  {
    if from >= |t| then None
    else if Lookahead(t, from, L) then Some(from)
    else FirstEnd(t, from + 1, L)
  }

  /**
   * The content group once the label ends at `w`: `\s*` first takes `k`
   * whitespace characters and gives them back one at a time while no end
   * of the content is found. Returns the content's start and end.
   */
  function ContentMatch(t: string, w: nat, k: nat, L: LabelSet): (r: Option<(nat, nat)>)
    requires w + k <= |t|
    ensures r.Some? ==> w <= r.value.0 < r.value.1 <= |t|
    decreases k
  {
    match FirstEnd(t, w + k + 1, L)
    case Some(e) => Some((w + k, e))
    case None => if k == 0 then None else ContentMatch(t, w, k - 1, L)
  }

  /** The two groups of one match: the label group and the content. */
  datatype Capture = Capture(heading: string, content: string)

  /** A match of the pattern at the start of `t`, with the position where it ends. */
  function MatchAt(t: string, L: LabelSet): (r: Option<(Capture, nat)>)
    ensures r.Some? ==> 0 < r.value.1 <= |t|
  {
    match LabelAt(t, 0, L)
    case None => None
    case Some(w) =>
      var k := RunLength(t, w, IsSpace);
      match ContentMatch(t, w, k, L)
      case None => None
      case Some(se) =>
        var group1 := if L.spaceInLabelGroup then t[..se.0] else t[..w];
        Some((Capture(group1, t[se.0..se.1]), se.1))
  }

  /** `pattern.finditer(t)`: after a match the search resumes where it ended. */
  function Scan(t: string, L: LabelSet): seq<Capture>
    decreases |t|
  {
    if |t| == 0 then []
    else
      match MatchAt(t, L)
      case Some(m) => [m.0] + Scan(t[m.1..], L)
      case None => Scan(t[1..], L)
  }

  /** The speaker decided from the stripped label group, case-sensitively, learner first. */
  function SpeakerOf(heading: string, L: LabelSet): Option<Speaker> {
    var g := Strip(heading);
    if Contains(g, L.learner) then Some(Learner)
    else if Contains(g, L.bot) then Some(Bot)
    else None
  }

  /** The turn one match contributes: none for an unknown label or an empty text. */
  function TurnOf(c: Capture, L: LabelSet): Option<(Speaker, string)> {
    match SpeakerOf(c.heading, L)
    case None => None
    case Some(sp) =>
      var text := CleanText(Strip(c.content));
      if text == "" then None else Some((sp, text))
  }

  /** One iteration of the loop over the matches: append the match's turn, if any. */
  function Emit(prev: seq<(Speaker, string)>, c: Capture, L: LabelSet): seq<(Speaker, string)> {
    match TurnOf(c, L)
    case None => prev
    case Some(p) => prev + [p]
  }

  /** The (speaker, text) pairs the loop over the matches appends, in order. */
  function Emitted(cs: seq<Capture>, L: LabelSet): seq<(Speaker, string)>
    decreases |cs|
  {
    if |cs| == 0 then [] else Emit(Emitted(cs[..|cs| - 1], L), cs[|cs| - 1], L)
  }

  /** What the extractor returns for `text`. */
  function LabelledTurns(text: string, L: LabelSet): seq<Turn> {
    Number(Emitted(Scan(text, L), L))
  }

  /** The body of the loop over the matches, up to the append. */
  method CaptureTurn(c: Capture, L: LabelSet) returns (r: Option<(Speaker, string)>)
    ensures r == TurnOf(c, L)
  {
    var speakerLabel := Strip(c.heading);
    var content := Strip(c.content);
    var speaker: Speaker;
    if Contains(speakerLabel, L.learner) {
      speaker := Learner;
    } else if Contains(speakerLabel, L.bot) {
      speaker := Bot;
    } else {
      return None;
    }
    assert SpeakerOf(c.heading, L) == Some(speaker);
    content := CleanText(content);
    if content != "" {
      r := Some((speaker, content));
    } else {
      r := None;
    }
  }

  /** The body shared by `parse_week1_week2` and `parse_week3`. */
  method ParseLabelled(text: string, L: LabelSet) returns (turns: seq<Turn>)
    ensures turns == LabelledTurns(text, L)
  {
    turns := [];
    var turnNum := 1;
    var matches := Scan(text, L);
    ghost var emitted: seq<(Speaker, string)> := [];
    var i := 0;
    while i < |matches|
      invariant 0 <= i <= |matches|
      invariant emitted == Emitted(matches[..i], L)
      invariant turns == Number(emitted)
      invariant turnNum == |emitted| + 1
    {
      assert matches[..i + 1][..i] == matches[..i];
      assert Emitted(matches[..i + 1], L) == Emit(emitted, matches[i], L);
      var t := CaptureTurn(matches[i], L);
      if t.Some? {
        NumberSnoc(emitted, t.value);
        turns := turns + [Turn(turnNum, t.value.0, t.value.1)];
        turnNum := turnNum + 1;
        emitted := emitted + [t.value];
      }
      i := i + 1;
    }
    assert matches[..i] == matches;
  }

  method ParseWeek1Week2(text: string) returns (turns: seq<Turn>)
    ensures turns == LabelledTurns(text, English)
  {
    turns := ParseLabelled(text, English);
  }

  method ParseWeek3(text: string) returns (turns: seq<Turn>)
    ensures turns == LabelledTurns(text, Portuguese)
  {
    turns := ParseLabelled(text, Portuguese);
  }

  // ---------------------------------------------------------------------
  // What every result looks like

  /** What `clean_text` leaves when it leaves something. */
  predicate CleanTurnText(t: string) {
    t != "" && !IsSpace(t[0]) && !IsSpace(t[|t| - 1]) && SpacesOnly(t)
  }

  lemma TurnOfClean(c: Capture, L: LabelSet)
    ensures TurnOf(c, L).Some? ==> CleanTurnText(TurnOf(c, L).value.1)
  {
    CleanTextShape(Strip(c.content));
  }

  /** Every emitted text is a non-empty `clean_text` result. */
  lemma {:induction false} EmittedClean(cs: seq<Capture>, L: LabelSet)
    ensures |Emitted(cs, L)| <= |cs|
    ensures forall k :: 0 <= k < |Emitted(cs, L)| ==> CleanTurnText(Emitted(cs, L)[k].1)
    decreases |cs|
  {
    if |cs| > 0 {
      var prev := Emitted(cs[..|cs| - 1], L);
      EmittedClean(cs[..|cs| - 1], L);
      TurnOfClean(cs[|cs| - 1], L);
      var e := Emitted(cs, L);
      forall k | 0 <= k < |e|
        ensures CleanTurnText(e[k].1)
      {
        if k < |prev| {
          assert e[k] == prev[k];
        }
      }
    }
  }

  /**
   * The turns are numbered 1..n, there is at most one per match, and each
   * text is non-empty, single-spaced and free of line breaks.
   */
  lemma LabelledTurnsShape(text: string, L: LabelSet)
    ensures NumberedFromOne(LabelledTurns(text, L))
    ensures |LabelledTurns(text, L)| <= |Scan(text, L)|
    ensures forall k :: 0 <= k < |LabelledTurns(text, L)| ==> CleanTurnText(LabelledTurns(text, L)[k].text)
  {
    var es := Emitted(Scan(text, L), L);
    NumberSpec(es);
    EmittedClean(Scan(text, L), L);
  }

  /** Without a line break the content lookahead never holds, so no match is found. */
  lemma {:induction false} NoLineBreakNoMatch(t: string, L: LabelSet)
    requires '\n' !in t
    ensures Scan(t, L) == []
    decreases |t|
  {
    if |t| > 0 {
      if LabelAt(t, 0, L).Some? {
        var w := LabelAt(t, 0, L).value;
        NoEndWithoutLineBreak(t, w, RunLength(t, w, IsSpace), L);
      }
      assert forall j :: 0 <= j < |t[1..]| ==> t[1..][j] == t[j + 1];
      NoLineBreakNoMatch(t[1..], L);
    }
  }

  lemma {:induction false} NoEndWithoutLineBreak(t: string, w: nat, k: nat, L: LabelSet)
    requires '\n' !in t && w + k <= |t|
    ensures ContentMatch(t, w, k, L).None?
    decreases k
  {
    assert forall e :: 0 <= e < |t| ==> t[e] != '\n';
    if k > 0 {
      NoEndWithoutLineBreak(t, w, k - 1, L);
    }
  }

  /** A text without a line break yields no turns at all. */
  lemma NoLineBreakNoTurns(text: string, L: LabelSet)
    requires '\n' !in text
    ensures LabelledTurns(text, L) == []
  {
    NoLineBreakNoMatch(text, L);
  }

  // ---------------------------------------------------------------------
  // Rendering a transcript and reading it back

  /** Both labels start with a letter, in different letter case classes. */
  predicate LetterLabels(L: LabelSet) {
    && |L.learner| > 0 && |L.bot| > |L.learner| + 1
    && IsLower(ToLower(L.learner[0])) && IsLower(ToLower(L.bot[0]))
    && ToLower(L.learner[0]) != ToLower(L.bot[0])
  }

  /**
   * The learner label cannot be read inside the bot label, whatever its
   * spelling: it holds a letter the bot label lacks; both labels end in a
   * letter and the colons are neither letters nor whitespace.
   */
  predicate Distinguishable(L: LabelSet) {
    && |L.learner| > 0 && |L.bot| > 0
    && IsAsciiLower(L.learner[|L.learner| - 1]) && IsAsciiLower(L.bot[|L.bot| - 1])
    && (forall c :: c in L.colons ==> !IsSpace(c) && !IsUpper(c) && !IsLower(c))
    && (exists j :: 0 <= j < |L.learner| && IsLower(ToLower(L.learner[j])) && ToLower(L.learner[j]) !in Lower(L.bot))
  }

  /** The facts about a label set that make rendered transcripts parse back. */
  predicate WellFormed(L: LabelSet) {
    LetterLabels(L) && Distinguishable(L)
  }

  /** A character absent from a text in both letter cases is absent from its lower-case form. */
  lemma AbsentFromLower(s: string, c: char)
    requires forall i :: 0 <= i < |s| ==> ToLower(s[i]) != c
    ensures c !in Lower(s)
  {
  }

  lemma EnglishWellFormed()
    ensures WellFormed(English)
  {
    var bot := English.bot;
    assert forall i :: 0 <= i < |bot| ==> ToLower(bot[i]) != 'y';
    AbsentFromLower(bot, 'y');
    assert ToLower(English.learner[0]) == 'y';
  }

  lemma PortugueseWellFormed()
    ensures WellFormed(Portuguese)
  {
    var bot := Portuguese.bot;
    assert forall i :: 0 <= i < |bot| ==> ToLower(bot[i]) != '\U{EA}';
    AbsentFromLower(bot, '\U{EA}');
    assert ToLower(Portuguese.learner[3]) == '\U{EA}';
  }

  /**
   * One transcript line: a speaker label spelled in any letter case, a colon
   * the convention accepts, one space, the content and a line break.
   */
  datatype Line = Line(speaker: Speaker, spelling: string, colon: char, content: string)

  predicate ValidLine(x: Line, L: LabelSet) {
    && Lower(x.spelling) == Lower(LabelOf(x.speaker, L))
    && x.colon in L.colons
    && |x.content| > 0 && !IsSpace(x.content[0]) && !IsSpace(x.content[|x.content| - 1])
    && '\n' !in x.content
  }

  function RenderLine(x: Line): string {
    x.spelling + [x.colon] + " " + x.content + "\n"
  }

  function Render(xs: seq<Line>): string
    decreases |xs|
  {
    if |xs| == 0 then "" else RenderLine(xs[0]) + Render(xs[1..])
  }

  /** The label group the pattern captures for a rendered line. */
  function HeadingOf(x: Line, L: LabelSet): string {
    if L.spaceInLabelGroup then x.spelling + [x.colon] + " " else x.spelling + [x.colon]
  }

  function Captures(xs: seq<Line>, L: LabelSet): seq<Capture> {
    seq(|xs|, i requires 0 <= i < |xs| => Capture(HeadingOf(xs[i], L), xs[i].content))
  }

  /**
   * The turns a rendered transcript should give: one per line whose label is
   * spelled exactly and whose cleaned content is not empty.
   */
  function Expected(xs: seq<Line>, L: LabelSet): seq<(Speaker, string)>
    decreases |xs|
  {
    if |xs| == 0 then []
    else
      var prev := Expected(xs[..|xs| - 1], L);
      var x := xs[|xs| - 1];
      var text := CleanText(Strip(x.content));
      if x.spelling == LabelOf(x.speaker, L) && text != "" then prev + [(x.speaker, text)] else prev
  }

  /** A character whose lower-case form is a letter is itself a letter, hence no space. */
  lemma LetterNotSpace(c: char)
    requires IsLower(ToLower(c))
    ensures !IsSpace(c) && c != '\n'
  {
  }

  lemma LabelAtLine(x: Line, rest: string, L: LabelSet)
    requires LetterLabels(L) && ValidLine(x, L)
    ensures LabelAt(RenderLine(x) + rest, 0, L) == Some(|x.spelling| + 1)
  {
    var t := RenderLine(x) + rest;
    var n := |x.spelling|;
    var own := LabelOf(x.speaker, L);
    assert |Lower(x.spelling)| == n && |Lower(own)| == |own|;
    assert t[..n] == x.spelling;
    assert t[n] == x.colon;
    assert StartsAtCI(t, 0, own);
    if x.speaker == Bot {
      var n1 := |L.learner|;
      assert !StartsAtCI(t, 0, L.learner) by {
        assert Lower(t[..n1])[0] == ToLower(x.spelling[0]) == Lower(x.spelling)[0];
        assert Lower(x.spelling)[0] == Lower(L.bot)[0] == ToLower(L.bot[0]);
        assert Lower(L.learner)[0] == ToLower(L.learner[0]);
      }
    }
  }

  lemma ShiftLabelAt(a: string, b: string, L: LabelSet)
    requires LabelAt(b, 0, L).Some?
    ensures LabelAt(a + b, |a|, L).Some?
  {
    var t := a + b;
    var n1 := |L.learner|;
    var n2 := |L.bot|;
    if StartsAtCI(b, 0, L.learner) && n1 < |b| && b[n1] in L.colons {
      assert t[|a|..|a| + n1] == b[..n1];
      assert t[|a| + n1] == b[n1];
    } else {
      assert t[|a|..|a| + n2] == b[..n2];
      assert t[|a| + n2] == b[n2];
    }
  }

  /** The lazy content search stops at the first line break where the lookahead holds. */
  lemma {:induction false} FirstEndAt(t: string, from: nat, e: nat, L: LabelSet)
    requires from <= e && Lookahead(t, e, L)
    requires forall j :: from <= j < e ==> t[j] != '\n'
    ensures FirstEnd(t, from, L) == Some(e)
    decreases e - from
  {
    if from < e {
      FirstEndAt(t, from + 1, e, L);
    }
  }

  /** Where the parts of a rendered line sit in the text. */
  lemma LineLayout(x: Line, rest: string)
    ensures var t := RenderLine(x) + rest;
      var w := |x.spelling| + 1;
      var e := w + 1 + |x.content|;
      && |RenderLine(x)| == e + 1 && |t| == e + 1 + |rest|
      && t[..w] == x.spelling + [x.colon] && t[..w + 1] == x.spelling + [x.colon] + " "
      && t[w] == ' ' && t[w + 1..e] == x.content && t[e] == '\n' && t[e + 1..] == rest
      && t[e..] == "\n" + rest
      && (forall j :: w + 1 <= j < e ==> t[j] == x.content[j - w - 1])
  {
  }

  /** The line break closing a rendered line satisfies the lookahead. */
  lemma LookaheadAfterLine(x: Line, rest: string, L: LabelSet)
    requires rest == "" || LabelAt(rest, 0, L).Some?
    ensures Lookahead(RenderLine(x) + rest, |x.spelling| + 2 + |x.content|, L)
  {
    LineLayout(x, rest);
    if rest != "" {
      ShiftLabelAt(RenderLine(x), rest, L);
    }
  }

  /** The lazy content group of a rendered line stops at the line's own break. */
  lemma ContentEnd(x: Line, rest: string, L: LabelSet)
    requires |x.content| > 0 && '\n' !in x.content
    requires rest == "" || LabelAt(rest, 0, L).Some?
    ensures FirstEnd(RenderLine(x) + rest, |x.spelling| + 3, L) == Some(|x.spelling| + 2 + |x.content|)
  {
    var t := RenderLine(x) + rest;
    var e := |x.spelling| + 2 + |x.content|;
    LookaheadAfterLine(x, rest, L);
    LineLayout(x, rest);
    forall j | |x.spelling| + 3 <= j < e
      ensures t[j] != '\n'
    {
      assert t[j] == x.content[j - |x.spelling| - 2];
    }
    FirstEndAt(t, |x.spelling| + 3, e, L);
  }

  /** The single space after the label is the whole run of whitespace there. */
  lemma SpaceAfterLabel(x: Line, rest: string)
    requires |x.content| > 0 && !IsSpace(x.content[0])
    ensures RunLength(RenderLine(x) + rest, |x.spelling| + 1, IsSpace) == 1
  {
    var t := RenderLine(x) + rest;
    var w := |x.spelling| + 1;
    LineLayout(x, rest);
    assert t[w + 1] == x.content[0];
    assert RunLength(t, w + 1, IsSpace) == 0;
  }

  /** The content group of a rendered line is everything between that space and the line break. */
  lemma ContentOfLine(x: Line, rest: string, L: LabelSet)
    requires |x.content| > 0 && '\n' !in x.content
    requires rest == "" || LabelAt(rest, 0, L).Some?
    ensures |x.spelling| + 2 <= |RenderLine(x) + rest|
    ensures ContentMatch(RenderLine(x) + rest, |x.spelling| + 1, 1, L)
         == Some((|x.spelling| + 2, |x.spelling| + 2 + |x.content|))
  {
    LineLayout(x, rest);
    ContentEnd(x, rest, L);
  }

  /** A rendered line followed by another label, or by nothing, is matched exactly. */
  lemma MatchLine(x: Line, rest: string, L: LabelSet)
    requires LabelAt(RenderLine(x) + rest, 0, L) == Some(|x.spelling| + 1)
    requires |x.content| > 0 && !IsSpace(x.content[0]) && '\n' !in x.content
    requires rest == "" || LabelAt(rest, 0, L).Some?
    ensures MatchAt(RenderLine(x) + rest, L) == Some((Capture(HeadingOf(x, L), x.content), |RenderLine(x)| - 1))
  {
    SpaceAfterLabel(x, rest);
    ContentOfLine(x, rest, L);
    LineLayout(x, rest);
  }

  /** A line break never starts a label, so the search moves past it. */
  lemma ScanLineBreak(t: string, L: LabelSet)
    requires LetterLabels(L)
    ensures Scan("\n" + t, L) == Scan(t, L)
  {
    var u := "\n" + t;
    assert !StartsAtCI(u, 0, L.learner) by {
      if |L.learner| <= |u| {
        assert Lower(u[..|L.learner|])[0] == '\n';
        assert Lower(L.learner)[0] == ToLower(L.learner[0]);
      }
    }
    assert !StartsAtCI(u, 0, L.bot) by {
      if |L.bot| <= |u| {
        assert Lower(u[..|L.bot|])[0] == '\n';
        assert Lower(L.bot)[0] == ToLower(L.bot[0]);
      }
    }
    assert u[1..] == t;
  }

  /** One rendered line is one match, and the search resumes at the next line. */
  lemma ScanStep(x: Line, rest: string, L: LabelSet)
    requires MatchAt(RenderLine(x) + rest, L) == Some((Capture(HeadingOf(x, L), x.content), |RenderLine(x)| - 1))
    requires Scan("\n" + rest, L) == Scan(rest, L)
    ensures Scan(RenderLine(x) + rest, L) == [Capture(HeadingOf(x, L), x.content)] + Scan(rest, L)
  {
    LineTail(x, rest);
    ScanUnfold(RenderLine(x) + rest, L);
  }

  lemma LineTail(x: Line, rest: string)
    ensures (RenderLine(x) + rest)[|RenderLine(x)| - 1..] == "\n" + rest
  {
  }

  lemma ScanUnfold(t: string, L: LabelSet)
    requires MatchAt(t, L).Some?
    ensures Scan(t, L) == [MatchAt(t, L).value.0] + Scan(t[MatchAt(t, L).value.1..], L)
  {
  }

  lemma CapturesCons(xs: seq<Line>, L: LabelSet)
    requires |xs| > 0
    ensures Captures(xs, L) == [Capture(HeadingOf(xs[0], L), xs[0].content)] + Captures(xs[1..], L)
  {
  }

  lemma RenderCons(xs: seq<Line>, tail: string)
    requires |xs| > 0
    ensures Render(xs) + tail == RenderLine(xs[0]) + (Render(xs[1..]) + tail)
  {
    ConcatAssoc(RenderLine(xs[0]), Render(xs[1..]), tail);
  }

  /** A rendered transcript, unless empty, starts with a label. */
  lemma RenderStartsWithLabel(xs: seq<Line>, tail: string, L: LabelSet)
    requires LetterLabels(L) && (|xs| > 0 ==> ValidLine(xs[0], L))
    requires tail == "" || LabelAt(tail, 0, L).Some?
    ensures Render(xs) + tail == "" || LabelAt(Render(xs) + tail, 0, L).Some?
  {
    if |xs| > 0 {
      RenderCons(xs, tail);
      LabelAtLine(xs[0], Render(xs[1..]) + tail, L);
    } else {
      assert Render(xs) + tail == tail;
    }
  }

  /** A valid rendered line followed by a label, or by nothing, is one match. */
  lemma ScanLine(x: Line, rest: string, L: LabelSet)
    requires LetterLabels(L) && ValidLine(x, L)
    requires rest == "" || LabelAt(rest, 0, L).Some?
    ensures Scan(RenderLine(x) + rest, L) == [Capture(HeadingOf(x, L), x.content)] + Scan(rest, L)
  {
    LabelAtLine(x, rest, L);
    MatchLine(x, rest, L);
    ScanLineBreak(rest, L);
    ScanStep(x, rest, L);
  }

  /** The first rendered line is one match, given that the rest are found. */
  lemma ScanRenderStep(xs: seq<Line>, tail: string, L: LabelSet)
    requires LetterLabels(L) && |xs| > 0 && ValidLine(xs[0], L)
    requires Render(xs[1..]) + tail == "" || LabelAt(Render(xs[1..]) + tail, 0, L).Some?
    requires Scan(Render(xs[1..]) + tail, L) == Captures(xs[1..], L) + Scan(tail, L)
    ensures Scan(Render(xs) + tail, L) == Captures(xs, L) + Scan(tail, L)
  {
    var rest := Render(xs[1..]) + tail;
    RenderCons(xs, tail);
    ScanLine(xs[0], rest, L);
    CapturesCons(xs, L);
    var cap := Capture(HeadingOf(xs[0], L), xs[0].content);
    ConcatAssoc([cap], Captures(xs[1..], L), Scan(tail, L));
  }

  /** Rendered lines are found one match each, in order, whatever follows a final label. */
  lemma {:induction false} ScanRender(xs: seq<Line>, tail: string, L: LabelSet)
    requires LetterLabels(L) && forall k :: 0 <= k < |xs| ==> ValidLine(xs[k], L)
    requires tail == "" || LabelAt(tail, 0, L).Some?
    ensures Scan(Render(xs) + tail, L) == Captures(xs, L) + Scan(tail, L)
    decreases |xs|
  {
    if |xs| == 0 {
      assert Render(xs) + tail == tail;
    } else {
      var ys := xs[1..];
      assert forall k :: 0 <= k < |ys| ==> ys[k] == xs[k + 1];
      RenderStartsWithLabel(ys, tail, L);
      ScanRender(ys, tail, L);
      ScanRenderStep(xs, tail, L);
    }
  }

  /** The label group of a rendered line names its speaker only when spelled exactly. */
  lemma SpeakerOfLine(x: Line, L: LabelSet)
    requires WellFormed(L) && ValidLine(x, L)
    ensures SpeakerOf(HeadingOf(x, L), L) == if x.spelling == LabelOf(x.speaker, L) then Some(x.speaker) else None
  {
    var g := x.spelling + [x.colon];
    var own := LabelOf(x.speaker, L);
    assert Lower(x.spelling)[0] == ToLower(x.spelling[0]);
    LetterNotSpace(x.spelling[0]);
    assert Strip(HeadingOf(x, L)) == g by {
      var h := HeadingOf(x, L);
      assert h[0] == x.spelling[0];
      assert LStrip(h) == h;
      assert RStrip(g) == g;
      if L.spaceInLabelGroup {
        assert h[..|h| - 1] == g;
      }
    }
    OwnLabel(x.spelling, x.colon, own);
    if x.speaker == Bot {
      LearnerNotInBot(x, L);
    } else {
      assert |g| < |L.bot|;
    }
  }

  /** A bot label in any spelling, with its colon, does not contain the learner label. */
  lemma LearnerNotInBot(x: Line, L: LabelSet)
    requires WellFormed(L) && ValidLine(x, L) && x.speaker == Bot
    ensures !Contains(x.spelling + [x.colon], L.learner)
  {
    var g := x.spelling + [x.colon];
    var n := |L.learner|;
    var j :| 0 <= j < n && IsLower(ToLower(L.learner[j])) && ToLower(L.learner[j]) !in Lower(L.bot);
    forall i | 0 <= i <= |g|
      ensures !StartsAt(g, i, L.learner)
    {
      if i + n <= |g| {
        if i + j < |x.spelling| {
          assert Lower(x.spelling)[i + j] == Lower(L.bot)[i + j];
          assert ToLower(g[i + j]) != ToLower(L.learner[j]);
        } else {
          assert g[i + j] == x.colon;
        }
        assert g[i..i + n][j] == g[i + j];
      }
    }
  }

  /** A label followed by a colon contains the label exactly when it is spelled exactly. */
  lemma OwnLabel(spelling: string, colon: char, name: string)
    requires |spelling| == |name| > 0 && colon != name[|name| - 1]
    ensures Contains(spelling + [colon], name) <==> spelling == name
  {
    var g := spelling + [colon];
    if spelling == name {
      assert StartsAt(g, 0, name);
    }
    if Contains(g, name) {
      var i :| 0 <= i <= |g| && StartsAt(g, i, name);
      assert g[..|name|] == spelling;
    }
  }

  lemma {:induction false} EmittedCaptures(xs: seq<Line>, L: LabelSet)
    requires WellFormed(L) && forall k :: 0 <= k < |xs| ==> ValidLine(xs[k], L)
    ensures Emitted(Captures(xs, L), L) == Expected(xs, L)
    decreases |xs|
  {
    if |xs| > 0 {
      var init := xs[..|xs| - 1];
      EmittedCaptures(init, L);
      assert Captures(xs, L)[..|xs| - 1] == Captures(init, L);
      SpeakerOfLine(xs[|xs| - 1], L);
    }
  }

  /**
   * Rendering lines and extracting them gives, numbered from 1, each line
   * whose label is spelled exactly, with its cleaned content: the label is
   * matched case-insensitively, but a label in another case is consumed
   * without producing a turn.
   */
  lemma RenderParses(xs: seq<Line>, L: LabelSet)
    requires WellFormed(L) && forall k :: 0 <= k < |xs| ==> ValidLine(xs[k], L)
    ensures LabelledTurns(Render(xs), L) == Number(Expected(xs, L))
  {
    ScanRender(xs, "", L);
    assert Render(xs) + "" == Render(xs);
    EmittedCaptures(xs, L);
    assert Captures(xs, L) + [] == Captures(xs, L);
  }

  /**
   * A final turn without a line break after it is never matched: its content
   * has no line break for the lookahead, so the extractor drops it.
   */
  lemma UnterminatedTurnDropped(xs: seq<Line>, tail: string, L: LabelSet)
    requires WellFormed(L) && forall k :: 0 <= k < |xs| ==> ValidLine(xs[k], L)
    requires LabelAt(tail, 0, L).Some? && '\n' !in tail
    ensures LabelledTurns(Render(xs) + tail, L) == LabelledTurns(Render(xs), L)
  {
    ScanRender(xs, tail, L);
    ScanRender(xs, "", L);
    NoLineBreakNoMatch(tail, L);
    assert Render(xs) + "" == Render(xs);
    NoLineBreakNoMatch("", L);
  }

  /** A line whose label is spelled exactly and whose content does not clean to nothing. */
  predicate ExactLine(x: Line, L: LabelSet) {
    && x.spelling == LabelOf(x.speaker, L)
    && |x.content| > 0 && !IsSpace(x.content[0]) && !IsSpace(x.content[|x.content| - 1])
    && CleanText(x.content) != ""
  }

  /**
   * The round trip: lines with exactly spelled labels come back as turns
   * 1..n with their speakers and their cleaned contents.
   */
  lemma RoundTrip(xs: seq<Line>, L: LabelSet)
    requires WellFormed(L) && forall k :: 0 <= k < |xs| ==> ValidLine(xs[k], L)
    requires forall k :: 0 <= k < |xs| ==> ExactLine(xs[k], L)
    ensures |LabelledTurns(Render(xs), L)| == |xs|
    ensures forall k :: 0 <= k < |xs| ==>
              LabelledTurns(Render(xs), L)[k] == Turn(k + 1, xs[k].speaker, CleanText(xs[k].content))
  {
    RenderParses(xs, L);
    ExpectedExact(xs, L);
    NumberSpec(Expected(xs, L));
  }

  lemma {:induction false} ExpectedExact(xs: seq<Line>, L: LabelSet)
    requires forall k :: 0 <= k < |xs| ==> ExactLine(xs[k], L)
    ensures |Expected(xs, L)| == |xs|
    ensures forall k :: 0 <= k < |xs| ==> Expected(xs, L)[k] == (xs[k].speaker, CleanText(xs[k].content))
    decreases |xs|
  {
    if |xs| > 0 {
      var init := xs[..|xs| - 1];
      assert forall k :: 0 <= k < |init| ==> init[k] == xs[k];
      ExpectedExact(init, L);
      ExpectedSnoc(xs, L);
      var e := Expected(xs, L);
      var ei := Expected(init, L);
      forall k | 0 <= k < |xs|
        ensures e[k] == (xs[k].speaker, CleanText(xs[k].content))
      {
        if k < |init| {
          assert e[k] == ei[k];
        }
      }
    }
  }

  lemma ExpectedSnoc(xs: seq<Line>, L: LabelSet)
    requires |xs| > 0 && ExactLine(xs[|xs| - 1], L)
    ensures Expected(xs, L) == Expected(xs[..|xs| - 1], L) + [(xs[|xs| - 1].speaker, CleanText(xs[|xs| - 1].content))]
  {
    StripNoSurroundingSpace(xs[|xs| - 1].content);
  }
}
