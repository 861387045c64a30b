/**
 * `DialogueParser.parse_week4_pdf`: the extractor for transcripts without
 * speaker labels. Non-blank lines are grouped into utterance blocks by a
 * continuation heuristic, header lines are dropped, short blocks are
 * discarded, and the speaker alternates with the block index.
 */
module UnlabelledParser {
  import opened Wrappers
  import opened Text
  import opened Normalizer
  import opened Dialogue

  /** `[l.strip() for l in ls if l.strip()]`. */
  function NonBlank(ls: seq<string>): seq<string>
    decreases |ls|
  {
    if |ls| == 0 then []
    else
      var s := Strip(ls[|ls| - 1]);
      NonBlank(ls[..|ls| - 1]) + (if s != "" then [s] else [])
  }

  /** The lines the extractor works on. */
  function NonBlankLines(text: string): seq<string> {
    NonBlank(SplitOn(text, '\n'))
  }

  /** Every kept line is non-empty and already stripped. */
  lemma {:induction false} NonBlankStripped(ls: seq<string>)
    ensures forall k :: 0 <= k < |NonBlank(ls)| ==> NonBlank(ls)[k] != "" && Strip(NonBlank(ls)[k]) == NonBlank(ls)[k]
    decreases |ls|
  {
    if |ls| > 0 {
      NonBlankStripped(ls[..|ls| - 1]);
      var s := Strip(ls[|ls| - 1]);
      StripSpec(ls[|ls| - 1]);
      StripNoSurroundingSpace(s);
    }
  }

  /**
   * `Task\s*\d+:` at `i`, ignoring case. Spaces and digits are disjoint
   * and neither is a colon, so the greedy runs never need to give anything
   * back: the match exists iff the maximal runs are followed by ':'.
   */
  predicate TaskMarkerAt(s: string, i: nat) {
    StartsAtCI(s, i, "task") &&
    var n := RunLength(s, i + 4, IsSpace);
    var d := RunLength(s, i + 4 + n, IsDigit);
    d > 0 && i + 4 + n + d < |s| && s[i + 4 + n + d] == ':'
  }

  /** `re.search(r'(?:Week4|Task\s*\d+:)', line, re.IGNORECASE)` succeeds. */
  predicate IsHeader(line: string) {
    ContainsCI(line, "week4") || exists i :: 0 <= i <= |line| && TaskMarkerAt(line, i)
  }

  /** An all-caps line shorter than 50 characters. */
  predicate IsCapsHeader(line: string) {
    IsUpperStr(line) && |line| < 50
  }

  /** `prev_line.rstrip().endswith(('.', '!', '?'))`. */
  predicate EndsSentence(prev: string) {
    var r := RStrip(prev);
    |r| > 0 && r[|r| - 1] in {'.', '!', '?'}
  }

  /** `line[0].isupper()` on a non-empty line. */
  predicate StartsCapital(line: string) {
    |line| > 0 && IsUpper(line[0])
  }

  /** The continuation heuristic: `line` is merged into the block whose last line is `prev`. */
  predicate Continues(prev: string, line: string) {
    var pe := EndsSentence(prev);
    var sc := StartsCapital(line);
    var wc := |Words(line)|;
    (!pe && !sc) || (wc < 5 && !sc) || (!pe && wc < 8)
  }

  /** The accumulator state of the line loop: the closed groups of lines and the open one. */
  datatype Grouping = Grouping(closed: seq<seq<string>>, current: seq<string>)

  /** Closing the open group, if there is one. */
  function Close(g: Grouping): seq<seq<string>> {
    if g.current == [] then g.closed else g.closed + [g.current]
  }

  /** One iteration of the line loop. */
  function Step(g: Grouping, line: string): Grouping {
    if IsHeader(line) then Grouping(Close(g), [])
    else if IsCapsHeader(line) then g
    else if g.current != [] && Continues(g.current[|g.current| - 1], line) then Grouping(g.closed, g.current + [line])
    else Grouping(Close(g), [line])
  }

  function GroupLines(lines: seq<string>): Grouping
    decreases |lines|
  {
    if |lines| == 0 then Grouping([], [])
    else Step(GroupLines(lines[..|lines| - 1]), lines[|lines| - 1])
  }

  /** The groups of lines once the final group is closed. */
  function Groups(lines: seq<string>): seq<seq<string>> {
    Close(GroupLines(lines))
  }

  /** `' '.join(current_block).strip()`. */
  function BlockText(group: seq<string>): string {
    Strip(Join(group, " "))
  }

  /** The texts of the groups longer than 5 characters, in order. */
  function KeepBlocks(groups: seq<seq<string>>): seq<string>
    decreases |groups|
  {
    if |groups| == 0 then []
    else
      var t := BlockText(groups[|groups| - 1]);
      KeepBlocks(groups[..|groups| - 1]) + (if |t| > 5 then [t] else [])
  }

  function Blocks(text: string): seq<string> {
    KeepBlocks(Groups(NonBlankLines(text)))
  }

  /** Even block indices are the learner's, odd ones the bot's. */
  function SpeakerAt(i: nat): Speaker {
    if i % 2 == 0 then Learner else Bot
  }

  /** The (speaker, text) pairs of the turn loop: blocks that clean to fewer than 5 characters are skipped. */
  function Assign(blocks: seq<string>): seq<(Speaker, string)>
    decreases |blocks|
  {
    if |blocks| == 0 then []
    else
      var n := |blocks| - 1;
      var c := CleanText(blocks[n]);
      Assign(blocks[..n]) + (if |c| >= 5 then [(SpeakerAt(n), c)] else [])
  }

  /** What `parse_week4_pdf` returns for `text`. */
  function UnlabelledTurns(text: string): seq<Turn> {
    Number(Assign(Blocks(text)))
  }

  /** Saving the open block: `if current_block: ... if block_text and len(block_text) > 5: append`. */
  method SaveBlock(blocks: seq<string>, current: seq<string>, ghost closed: seq<seq<string>>) returns (r: seq<string>)
    requires blocks == KeepBlocks(closed)
    ensures r == KeepBlocks(Close(Grouping(closed, current)))
  {
    r := blocks;
    if current != [] {
      var blockText := BlockText(current);
      KeepBlocksSnoc(closed, current);
      if blockText != "" && |blockText| > 5 {
        r := blocks + [blockText];
      }
    }
  }

  lemma KeepBlocksSnoc(groups: seq<seq<string>>, g: seq<string>)
    ensures KeepBlocks(groups + [g]) == KeepBlocks(groups) + (if |BlockText(g)| > 5 then [BlockText(g)] else [])
  {
    assert (groups + [g])[..|groups|] == groups;
  }

  /** The first loop: group the lines and keep the long blocks. */
  method BuildBlocks(lines: seq<string>) returns (blocks: seq<string>)
    requires forall k :: 0 <= k < |lines| ==> Strip(lines[k]) == lines[k]
    ensures blocks == KeepBlocks(Groups(lines))
  {
    blocks := [];
    var current: seq<string> := [];
    ghost var g := Grouping([], []);
    var i := 0;
    while i < |lines|
      invariant 0 <= i <= |lines|
      invariant g == GroupLines(lines[..i])
      invariant blocks == KeepBlocks(g.closed) && current == g.current
    {
      assert lines[..i + 1][..i] == lines[..i];
      var line := Strip(lines[i]);
      ghost var next := Step(g, line);
      if IsHeader(line) {
        blocks := SaveBlock(blocks, current, g.closed);
        current := [];
      } else if IsCapsHeader(line) {
      } else {
        var isContinuation := false;
        if current != [] {
          var prev := current[|current| - 1];
          var prevEndsPunct := EndsSentence(prev);
          var startsCapital := StartsCapital(line);
          var wordCount := |Words(line)|;
          isContinuation := (!prevEndsPunct && !startsCapital) || (wordCount < 5 && !startsCapital) || (!prevEndsPunct && wordCount < 8);
        }
        if isContinuation && current != [] {
          current := current + [line];
        } else {
          blocks := SaveBlock(blocks, current, g.closed);
          current := [line];
        }
      }
      g := next;
      i := i + 1;
    }
    assert lines[..i] == lines;
    blocks := SaveBlock(blocks, current, g.closed);
  }

  /** The second loop: clean each block, skip short ones, alternate speakers by block index. */
  method AssignSpeakers(blocks: seq<string>) returns (turns: seq<Turn>)
    ensures turns == Number(Assign(blocks))
  {
    turns := [];
    var turnNum := 1;
    ghost var paired: seq<(Speaker, string)> := [];
    var i := 0;
    while i < |blocks|
      invariant 0 <= i <= |blocks|
      invariant paired == Assign(blocks[..i])
      invariant turns == Number(paired) && turnNum == |paired| + 1
    {
      turns, turnNum, paired := AssignOne(blocks, i, turns, turnNum, paired);
      i := i + 1;
    }
    assert blocks[..i] == blocks;
  }

  /** One pass of the second loop, for block `i`. */
  method AssignOne(blocks: seq<string>, i: nat, turns0: seq<Turn>, turnNum0: int, ghost paired0: seq<(Speaker, string)>)
    returns (turns: seq<Turn>, turnNum: int, ghost paired: seq<(Speaker, string)>)
    requires i < |blocks| && paired0 == Assign(blocks[..i])
    requires turns0 == Number(paired0) && turnNum0 == |paired0| + 1
    ensures paired == Assign(blocks[..i + 1])
    ensures turns == Number(paired) && turnNum == |paired| + 1
  {
    assert blocks[..i + 1][..i] == blocks[..i];
    turns, turnNum, paired := turns0, turnNum0, paired0;
    var cleaned := CleanText(blocks[i]);
    if cleaned == "" || |cleaned| < 5 {
    } else {
      var speaker := if i % 2 == 0 then Learner else Bot;
      NumberSnoc(paired, (speaker, cleaned));
      turns := turns + [Turn(turnNum, speaker, cleaned)];
      turnNum := turnNum + 1;
      paired := paired + [(speaker, cleaned)];
    }
  }

  /** `DialogueParser.parse_week4_pdf`; the colour data it accepts is ignored. */
  method ParseWeek4Pdf(text: string) returns (turns: seq<Turn>)
    ensures turns == UnlabelledTurns(text)
  {
    var lines := NonBlankLines(text);
    NonBlankStripped(SplitOn(text, '\n'));
    var blocks := BuildBlocks(lines);
    turns := AssignSpeakers(blocks);
  }

  // ---------------------------------------------------------------------
  // Blocks: a partition of the content lines into continuation chains.
  // ---------------------------------------------------------------------

  /** The lines that are neither headers nor all-caps headers, in order. */
  function ContentLines(lines: seq<string>): seq<string>
    decreases |lines|
  {
    if |lines| == 0 then []
    else
      var l := lines[|lines| - 1];
      ContentLines(lines[..|lines| - 1]) + (if !IsHeader(l) && !IsCapsHeader(l) then [l] else [])
  }

  function Flatten(gs: seq<seq<string>>): seq<string>
    decreases |gs|
  {
    if |gs| == 0 then [] else Flatten(gs[..|gs| - 1]) + gs[|gs| - 1]
  }

  /** Each line of a group continues the line before it. */
  predicate Chained(group: seq<string>) {
    forall j :: 0 < j < |group| ==> Continues(group[j - 1], group[j])
  }

  predicate GroupOk(group: seq<string>) {
    group != [] && Chained(group)
  }

  predicate GroupingOk(g: Grouping) {
    (forall k :: 0 <= k < |g.closed| ==> GroupOk(g.closed[k])) && Chained(g.current)
  }

  lemma FlattenSnoc(gs: seq<seq<string>>, g: seq<string>)
    ensures Flatten(gs + [g]) == Flatten(gs) + g
  {
    assert (gs + [g])[..|gs|] == gs;
  }

  lemma CloseSpec(g: Grouping)
    requires GroupingOk(g)
    ensures forall k :: 0 <= k < |Close(g)| ==> GroupOk(Close(g)[k])
    ensures Flatten(Close(g)) == Flatten(g.closed) + g.current
  {
    if g.current != [] {
      FlattenSnoc(g.closed, g.current);
    } else {
      assert Flatten(g.closed) + g.current == Flatten(g.closed);
    }
  }

  /** The loop's state always consists of continuation chains covering exactly the content lines. */
  lemma {:induction false} GroupLinesSpec(lines: seq<string>)
    ensures GroupingOk(GroupLines(lines))
    ensures Flatten(GroupLines(lines).closed) + GroupLines(lines).current == ContentLines(lines)
    decreases |lines|
  {
    if |lines| > 0 {
      var init := lines[..|lines| - 1];
      var l := lines[|lines| - 1];
      var g := GroupLines(init);
      GroupLinesSpec(init);
      CloseSpec(g);
      if IsHeader(l) {
      } else if IsCapsHeader(l) {
      } else if g.current != [] && Continues(g.current[|g.current| - 1], l) {
        assert Flatten(g.closed) + (g.current + [l]) == (Flatten(g.closed) + g.current) + [l];
      } else {
        var c := Close(g);
        assert Flatten(c) + [l] == (Flatten(g.closed) + g.current) + [l];
      }
    }
  }

  /**
   * The blocks of `parse_week4_pdf` before the length filter: every group is
   * a non-empty chain in which each line continues the previous one, and
   * the groups, concatenated, are exactly the lines that are not headers,
   * in their original order.
   */
  lemma GroupsPartition(lines: seq<string>)
    ensures forall k :: 0 <= k < |Groups(lines)| ==> GroupOk(Groups(lines)[k])
    ensures Flatten(Groups(lines)) == ContentLines(lines)
  {
    GroupLinesSpec(lines);
    CloseSpec(GroupLines(lines));
  }

  lemma CloseShift(prefix: seq<seq<string>>, g: Grouping)
    ensures Close(Grouping(prefix + g.closed, g.current)) == prefix + Close(g)
  {
  }

  /** Groups closed before a point never influence what follows. */
  lemma StepShift(prefix: seq<seq<string>>, g: Grouping, line: string)
    ensures Step(Grouping(prefix + g.closed, g.current), line)
         == Grouping(prefix + Step(g, line).closed, Step(g, line).current)
  {
    CloseShift(prefix, g);
  }

  /** Lines processed after the open group was closed are grouped as if from the start. */
  lemma {:induction false} GroupLinesAfterClose(p: seq<string>, ys: seq<string>)
    requires GroupLines(p).current == []
    ensures GroupLines(p + ys) == Grouping(GroupLines(p).closed + GroupLines(ys).closed, GroupLines(ys).current)
    decreases |ys|
  {
    if |ys| == 0 {
      assert p + ys == p;
    } else {
      var init := ys[..|ys| - 1];
      var y := ys[|ys| - 1];
      GroupLinesAfterClose(p, init);
      SnocSplit(p, ys);
      GroupLinesSnoc(p + init, y);
      GroupLinesSnoc(init, y);
      StepShift(GroupLines(p).closed, GroupLines(init), y);
    }
  }

  lemma GroupLinesSnoc(xs: seq<string>, y: string)
    ensures GroupLines(xs + [y]) == Step(GroupLines(xs), y)
  {
    assert (xs + [y])[..|xs|] == xs;
  }

  /** Equal states stay equal after the same lines. */
  lemma {:induction false} GroupLinesCongruent(p: seq<string>, q: seq<string>, ys: seq<string>)
    requires GroupLines(p) == GroupLines(q)
    ensures GroupLines(p + ys) == GroupLines(q + ys)
    decreases |ys|
  {
    if |ys| > 0 {
      var init := ys[..|ys| - 1];
      var y := ys[|ys| - 1];
      GroupLinesCongruent(p, q, init);
      assert p + ys == (p + init) + [y];
      assert q + ys == (q + init) + [y];
      GroupLinesSnoc(p + init, y);
      GroupLinesSnoc(q + init, y);
    } else {
      assert p + ys == p && q + ys == q;
    }
  }

  /** A header line closes the open block: no block spans it, and it is dropped. */
  lemma HeaderSplits(xs: seq<string>, h: string, ys: seq<string>)
    requires IsHeader(h)
    ensures Groups(xs + [h] + ys) == Groups(xs) + Groups(ys)
  {
    var p := xs + [h];
    assert p[..|p| - 1] == xs;
    GroupLinesAfterClose(p, ys);
    CloseShift(Groups(xs), GroupLines(ys));
  }

  /** An all-caps line under 50 characters that is not a header is dropped without closing the block. */
  lemma CapsLineIgnored(xs: seq<string>, c: string, ys: seq<string>)
    requires IsCapsHeader(c) && !IsHeader(c)
    ensures Groups(xs + [c] + ys) == Groups(xs + ys)
  {
    var p := xs + [c];
    assert p[..|p| - 1] == xs;
    GroupLinesCongruent(p, xs, ys);
  }

  /** Every kept block is longer than 5 characters and is the text of one group. */
  lemma {:induction false} KeepBlocksSpec(groups: seq<seq<string>>)
    ensures |KeepBlocks(groups)| <= |groups|
    ensures forall k :: 0 <= k < |KeepBlocks(groups)| ==>
      |KeepBlocks(groups)[k]| > 5 && exists i :: 0 <= i < |groups| && KeepBlocks(groups)[k] == BlockText(groups[i])
    decreases |groups|
  {
    if |groups| > 0 {
      var init := groups[..|groups| - 1];
      KeepBlocksSpec(init);
      var kb := KeepBlocks(groups);
      forall k | 0 <= k < |kb|
        ensures |kb[k]| > 5 && exists i :: 0 <= i < |groups| && kb[k] == BlockText(groups[i])
      {
        if k < |KeepBlocks(init)| {
          var i :| 0 <= i < |init| && KeepBlocks(init)[k] == BlockText(init[i]);
          assert kb[k] == BlockText(groups[i]);
        } else {
          assert kb[k] == BlockText(groups[|groups| - 1]);
        }
      }
    }
  }

  // ---------------------------------------------------------------------
  // Turns: speakers by block parity.
  // ---------------------------------------------------------------------

  /** A block is turned into a turn iff its cleaned text has at least 5 characters. */
  predicate LongEnough(block: string) {
    |CleanText(block)| >= 5
  }

  /** The indices of the blocks whose cleaned text has at least 5 characters. */
  function LongIndices(blocks: seq<string>): seq<nat>
    decreases |blocks|
  {
    if |blocks| == 0 then []
    else
      var n := |blocks| - 1;
      LongIndices(blocks[..n]) + (if LongEnough(blocks[n]) then [n] else [])
  }

  /** The kept indices are in range, strictly increasing, and are exactly the long blocks. */
  lemma LongIndicesSpec(blocks: seq<string>)
    ensures forall k :: 0 <= k < |LongIndices(blocks)| ==> LongIndices(blocks)[k] < |blocks|
    ensures forall k, m :: 0 <= k < m < |LongIndices(blocks)| ==> LongIndices(blocks)[k] < LongIndices(blocks)[m]
    ensures forall i :: 0 <= i < |blocks| ==> (i in LongIndices(blocks) <==> LongEnough(blocks[i]))
  {
    LongIndicesIncreasing(blocks);
    LongIndicesExact(blocks);
  }

  lemma {:induction false} LongIndicesIncreasing(blocks: seq<string>)
    ensures forall k :: 0 <= k < |LongIndices(blocks)| ==> LongIndices(blocks)[k] < |blocks|
    ensures forall k, m :: 0 <= k < m < |LongIndices(blocks)| ==> LongIndices(blocks)[k] < LongIndices(blocks)[m]
    decreases |blocks|
  {
    if |blocks| > 0 {
      LongIndicesIncreasing(blocks[..|blocks| - 1]);
    }
  }

  lemma {:induction false} LongIndicesExact(blocks: seq<string>)
    ensures forall i :: 0 <= i < |blocks| ==> (i in LongIndices(blocks) <==> LongEnough(blocks[i]))
    decreases |blocks|
  {
    if |blocks| > 0 {
      var n := |blocks| - 1;
      var init := blocks[..n];
      LongIndicesExact(init);
      LongIndicesIncreasing(init);
      var li := LongIndices(blocks);
      var lo := LongIndices(init);
      assert li == lo + (if LongEnough(blocks[n]) then [n] else []);
      assert n !in lo;
      forall i | 0 <= i < n ensures (i in li <==> LongEnough(blocks[i])) {
        assert blocks[i] == init[i];
        assert i in li <==> i in lo;
      }
    }
  }

  /**
   * The turn loop keeps exactly the blocks whose cleaned text has at least
   * 5 characters, in block order, and each keeps the speaker of its block
   * index: learner for even indices, bot for odd ones, whatever was
   * skipped before it.
   */
  lemma {:induction false} AssignSpec(blocks: seq<string>)
    ensures |Assign(blocks)| == |LongIndices(blocks)|
    ensures forall k :: 0 <= k < |LongIndices(blocks)| ==>
      LongIndices(blocks)[k] < |blocks| &&
      Assign(blocks)[k] == (SpeakerAt(LongIndices(blocks)[k]), CleanText(blocks[LongIndices(blocks)[k]]))
    decreases |blocks|
  {
    LongIndicesSpec(blocks);
    if |blocks| > 0 {
      var n := |blocks| - 1;
      var init := blocks[..n];
      AssignSpec(init);
      var li := LongIndices(blocks);
      var lo := LongIndices(init);
      var a := Assign(blocks);
      var ao := Assign(init);
      assert li == lo + (if LongEnough(blocks[n]) then [n] else []);
      assert a == ao + (if LongEnough(blocks[n]) then [(SpeakerAt(n), CleanText(blocks[n]))] else []);
      forall k | 0 <= k < |li| ensures a[k] == (SpeakerAt(li[k]), CleanText(blocks[li[k]])) {
        if k < |lo| {
          assert a[k] == ao[k] && li[k] == lo[k];
          assert blocks[lo[k]] == init[lo[k]];
        }
      }
    }
  }

  /** A turn text as `clean_text` leaves it, long enough to be kept. */
  predicate LongCleanText(t: string) {
    |t| >= 5 && !IsSpace(t[0]) && !IsSpace(t[|t| - 1]) && SpacesOnly(t)
  }

  lemma {:induction false} AssignTexts(blocks: seq<string>)
    ensures forall k :: 0 <= k < |Assign(blocks)| ==> LongCleanText(Assign(blocks)[k].1)
    decreases |blocks|
  {
    if |blocks| > 0 {
      var n := |blocks| - 1;
      AssignTexts(blocks[..n]);
      CleanTextShape(blocks[n]);
    }
  }

  /** Turns are numbered 1..n; every text is cleaned, has at least 5 characters and no surrounding whitespace. */
  lemma UnlabelledTurnsShape(text: string)
    ensures NumberedFromOne(UnlabelledTurns(text))
    ensures forall k :: 0 <= k < |UnlabelledTurns(text)| ==> LongCleanText(UnlabelledTurns(text)[k].text)
  {
    var ps := Assign(Blocks(text));
    NumberSpec(ps);
    AssignTexts(Blocks(text));
  }

  /** A skipped block between two kept ones gives two consecutive turns of the same speaker. */
  lemma SkippedBlockRepeatsSpeaker(a: string, b: string, c: string)
    requires LongEnough(a) && !LongEnough(b) && LongEnough(c)
    ensures Assign([a, b, c]) == [(Learner, CleanText(a)), (Learner, CleanText(c))]
  {
    assert [a, b, c][..2] == [a, b];
    assert [a, b][..1] == [a];
    assert [a][..0] == [];
    assert Assign([a]) == [(Learner, CleanText(a))];
    assert Assign([a, b]) == [(Learner, CleanText(a))];
  }

  /** Collapsing passes a prefix without whitespace through unchanged. */
  lemma {:induction false} CollapseAfterWord(a: string, b: string)
    requires forall k :: 0 <= k < |a| ==> !IsSpace(a[k])
    ensures CollapseSpace(a + b) == a + CollapseSpace(b)
    decreases |a|
  {
    if |a| > 0 {
      CollapseAfterWord(a[1..], b);
      CollapseHead(a + b);
      assert (a + b)[1..] == a[1..] + b;
      assert [a[0]] + a[1..] == a;
    } else {
      assert a + b == b;
    }
  }

  lemma CollapseHead(s: string)
    requires |s| > 0 && !IsSpace(s[0])
    ensures CollapseSpace(s) == [s[0]] + CollapseSpace(s[1..])
  {
  }

  lemma ClockCollapse()
    ensures CollapseSpace("12:30 PM") == "12:30 PM"
  {
    CollapseNoSpace("PM");
    assert RunLength(" PM", 0, IsSpace) == 1;
    assert " PM"[1..] == "PM";
    assert CollapseSpace(" PM") == " PM";
    CollapseAfterWord("12:30", " PM");
    assert "12:30" + " PM" == "12:30 PM";
  }

  lemma ClockMatch()
    ensures TimeMatch("12:30 PM", 0) == Some(8)
  {
    var s := "12:30 PM";
    assert RunLength(s, 5, IsSpace) == 1;
    assert StartsAt(s, 6, "PM");
  }

  lemma ClockText()
    ensures BlockText(["12:30 PM"]) == "12:30 PM"
  {
    StripNoSurroundingSpace("12:30 PM");
  }

  /** A block that is kept (8 characters) yet cleans to nothing, so it is skipped. */
  lemma ClockBlockCleansAway()
    ensures |BlockText(["12:30 PM"])| > 5
    ensures CleanText("12:30 PM") == ""
  {
    var s := "12:30 PM";
    ClockText();
    ClockCollapse();
    StripNoSurroundingSpace(s);
    ClockMatch();
    assert RemoveTimes(s) == "";
    assert Strip("") == "";
  }
}
