/**
 * `DialogueParser.clean_text`: collapse whitespace, strip, delete clock
 * times, strip again.
 */
module Normalizer {
  import opened Wrappers
  import opened Text

  /** Whitespace, if any, is the plain space only. */
  predicate SpacesOnly(s: string) {
    forall k :: 0 <= k < |s| ==> IsSpace(s[k]) ==> s[k] == ' '
  }

  /** `re.sub(r'\s+', ' ', s)`: every maximal whitespace run becomes one space. */
  function CollapseSpace(s: string): (r: string)
    ensures |r| <= |s|
    decreases |s|
  {
    if |s| == 0 then ""
    else if IsSpace(s[0]) then
      var n := RunLength(s, 0, IsSpace);
      " " + CollapseSpace(s[n..])
    else
      [s[0]] + CollapseSpace(s[1..])
  }

  /** After collapsing, the space is the only whitespace left, and all-whitespace text becomes at most one space. */
  lemma {:induction false} CollapseSpaceSpec(s: string)
    ensures SpacesOnly(CollapseSpace(s))
    ensures AllSpace(s) ==> CollapseSpace(s) == "" || CollapseSpace(s) == " "
    decreases |s|
  {
    if |s| > 0 {
      var head: string;
      var rest: string;
      if IsSpace(s[0]) {
        var n := RunLength(s, 0, IsSpace);
        CollapseSpaceSpec(s[n..]);
        assert AllSpace(s) ==> |s[n..]| == 0;
        head, rest := " ", CollapseSpace(s[n..]);
      } else {
        CollapseSpaceSpec(s[1..]);
        head, rest := [s[0]], CollapseSpace(s[1..]);
      }
      assert CollapseSpace(s) == head + rest;
      forall k | 0 < k < |head + rest| ensures (head + rest)[k] == rest[k - 1] {
      }
    }
  }

  /**
   * The end of a match of `\d{1,2}:\d{2}(?::\d{2})?(?:\s*(?:AM|PM))?` at `i`.
   * When two digits start the match the colon must follow them (giving one
   * back would put a digit where the colon is), so the hour has one
   * reading; every later part is optional and is taken greedily.
   */
  function TimeMatch(s: string, i: nat): (r: Option<nat>)
    requires i <= |s|
    ensures r.Some? ==> i + 4 <= r.value <= |s|
  {
    if !(i < |s| && IsDigit(s[i])) then None
    else
      var c := if i + 1 < |s| && IsDigit(s[i + 1]) then i + 2 else i + 1;
      if c + 2 < |s| && s[c] == ':' && IsDigit(s[c + 1]) && IsDigit(s[c + 2]) then
        var j := c + 3;
        var j' := if j + 2 < |s| && s[j] == ':' && IsDigit(s[j + 1]) && IsDigit(s[j + 2]) then j + 3 else j;
        var n := RunLength(s, j', IsSpace);
        Some(if StartsAt(s, j' + n, "AM") || StartsAt(s, j' + n, "PM") then j' + n + 2 else j')
      else None
  }

  /** `re.sub(<time pattern>, '', s[i:])`, scanning left to right. */
  function RemoveTimesFrom(s: string, i: nat): (r: string)
    requires i <= |s|
    ensures |r| <= |s| - i
    decreases |s| - i
  {
    if i == |s| then ""
    else
      match TimeMatch(s, i)
      case Some(e) => RemoveTimesFrom(s, e)
      case None => [s[i]] + RemoveTimesFrom(s, i + 1)
  }

  function RemoveTimes(s: string): (r: string)
    ensures |r| <= |s|
  {
    RemoveTimesFrom(s, 0)
  }

  /** Deleting clock times keeps every remaining character, so it adds no whitespace other than the space. */
  lemma {:induction false} RemoveTimesFromSpaces(s: string, i: nat)
    requires i <= |s| && SpacesOnly(s)
    ensures SpacesOnly(RemoveTimesFrom(s, i))
    decreases |s| - i
  {
    if i < |s| {
      match TimeMatch(s, i)
      case Some(e) => RemoveTimesFromSpaces(s, e);
      case None =>
        RemoveTimesFromSpaces(s, i + 1);
        var rest := RemoveTimesFrom(s, i + 1);
        forall k | 0 < k < |[s[i]] + rest| ensures ([s[i]] + rest)[k] == rest[k - 1] {
        }
    }
  }

  lemma StripSpacesOnly(s: string)
    requires SpacesOnly(s)
    ensures SpacesOnly(Strip(s))
  {
    var l := LStrip(s);
    var r := RStrip(l);
    LStripSpec(s);
    RStripSpec(l);
    forall k | 0 <= k < |r| ensures IsSpace(r[k]) ==> r[k] == ' ' {
      assert r[k] == l[k];
      assert l[k] == s[|s| - |l| + k];
    }
  }

  /** `DialogueParser.clean_text`. */
  function CleanText(s: string): string {
    Strip(RemoveTimes(Strip(CollapseSpace(s))))
  }

  /**
   * The result of `clean_text` has no surrounding whitespace, its only
   * whitespace character is the space (so it holds no line break), it is
   * never longer than the input, and an all-whitespace input gives "".
   */
  lemma CleanTextShape(s: string)
    ensures CleanText(s) == [] || (!IsSpace(CleanText(s)[0]) && !IsSpace(CleanText(s)[|CleanText(s)| - 1]))
    ensures SpacesOnly(CleanText(s))
    ensures |CleanText(s)| <= |s|
    ensures AllSpace(s) ==> CleanText(s) == ""
  {
    var collapsed := CollapseSpace(s);
    var timeless := RemoveTimes(Strip(collapsed));
    CollapseSpaceSpec(s);
    StripSpacesOnly(collapsed);
    RemoveTimesFromSpaces(Strip(collapsed), 0);
    StripSpacesOnly(timeless);
    StripAllSpace(collapsed);
    StripSpec(collapsed);
    StripSpec(timeless);
  }

  lemma {:induction false} CollapseNoSpace(s: string)
    requires forall k :: 0 <= k < |s| ==> !IsSpace(s[k])
    ensures CollapseSpace(s) == s
    decreases |s|
  {
    if |s| > 0 {
      CollapseNoSpace(s[1..]);
    }
  }

  lemma StripNoSpace(s: string)
    requires forall k :: 0 <= k < |s| ==> !IsSpace(s[k])
    ensures Strip(s) == s
  {
  }

  lemma TimeMatchSteps()
    ensures TimeMatch("5:1:1122", 0) == None
    ensures TimeMatch("5:1:1122", 1) == None
    ensures TimeMatch("5:1:1122", 6) == None
    ensures TimeMatch("5:1:1122", 7) == None
  {
  }

  lemma TimeMatchHits()
    ensures TimeMatch("5:1:1122", 2) == Some(6)
    ensures TimeMatch("5:22", 0) == Some(4)
  {
    var s := "5:1:1122";
    assert RunLength(s, 6, IsSpace) == 0;
    assert !StartsAt(s, 6, "AM") && !StartsAt(s, 6, "PM");
    var t := "5:22";
    assert RunLength(t, 4, IsSpace) == 0;
  }

  lemma RemoveTimesSecond()
    ensures RemoveTimes("5:22") == ""
  {
    TimeMatchHits();
    assert RemoveTimesFrom("5:22", 4) == "";
  }

  lemma RemoveTimesSteps()
    ensures RemoveTimes("5:1:1122") == "5:22"
  {
    var s := "5:1:1122";
    TimeMatchSteps();
    TimeMatchHits();
    assert RemoveTimesFrom(s, 8) == "";
    assert RemoveTimesFrom(s, 7) == "2";
    assert RemoveTimesFrom(s, 6) == "22";
    assert RemoveTimesFrom(s, 2) == "22";
    assert RemoveTimesFrom(s, 1) == ":22";
  }

  /** Without whitespace, cleaning only deletes clock times. */
  lemma CleanNoSpace(s: string)
    requires forall k :: 0 <= k < |s| ==> !IsSpace(s[k])
    ensures CleanText(s) == Strip(RemoveTimes(s))
  {
    CollapseNoSpace(s);
    StripNoSpace(s);
  }

  lemma FirstNoSpace()
    ensures forall k :: 0 <= k < |"5:1:1122"| ==> !IsSpace("5:1:1122"[k])
  {
  }

  lemma CleanFirst()
    ensures CleanText("5:1:1122") == "5:22"
  {
    FirstNoSpace();
    CleanNoSpace("5:1:1122");
    RemoveTimesSteps();
    StripExample();
  }

  lemma StripExample()
    ensures Strip("5:22") == "5:22"
  {
    StripNoSpace("5:22");
  }

  lemma CleanSecond()
    ensures CleanText("5:22") == ""
  {
    StripExample();
    CleanNoSpace("5:22");
    RemoveTimesSecond();
    assert Strip("") == "";
  }

  /**
   * Deleting one clock time can bring two others together, so cleaning a
   * cleaned text may change it again: `clean_text` is not idempotent.
   */
  lemma CleanNotIdempotent()
    ensures CleanText(CleanText("5:1:1122")) != CleanText("5:1:1122")
  {
    CleanFirst();
    CleanSecond();
  }
}
