/**
 * Calibration of the repair detector: predicted repair annotations are
 * normalised and matched against known annotations, first exactly (same
 * turns, initiation and resolution), then partially (same turns only), and
 * the match counts become true and false positives and false negatives.
 */
module CalibrateRepairDetection {
  import opened Wrappers
  import opened Repairs
  import Text

  // ---------------------------------------------------------------------
  // Python's ordering of strings: code point by code point, a proper
  // prefix first.
  // ---------------------------------------------------------------------

  predicate StrLeq(a: string, b: string)
    decreases |a|
  {
    |a| == 0 || (|b| > 0 && (a[0] < b[0] || (a[0] == b[0] && StrLeq(a[1..], b[1..]))))
  }

  lemma {:induction false} StrLeqAntisym(a: string, b: string)
    requires StrLeq(a, b) && StrLeq(b, a)
    ensures a == b
    decreases |a|
  {
    if |a| > 0 {
      StrLeqAntisym(a[1..], b[1..]);
      assert a == [a[0]] + a[1..];
      assert b == [b[0]] + b[1..];
    }
  }

  lemma {:induction false} StrLeqTotal(a: string, b: string)
    ensures StrLeq(a, b) || StrLeq(b, a)
    decreases |a|
  {
    if |a| > 0 && |b| > 0 && a[0] == b[0] {
      StrLeqTotal(a[1..], b[1..]);
    }
  }

  lemma {:induction false} StrLeqTrans(a: string, b: string, c: string)
    requires StrLeq(a, b) && StrLeq(b, c)
    ensures StrLeq(a, c)
    decreases |a|
  {
    if |a| > 0 && |b| > 0 && |c| > 0 && a[0] == b[0] && b[0] == c[0] {
      StrLeqTrans(a[1..], b[1..], c[1..]);
    }
  }

  // ---------------------------------------------------------------------
  // Sorting by a total preorder, as `sorted` does.
  // ---------------------------------------------------------------------

  /** Any two elements compare, and comparisons chain. */
  ghost predicate TotalPreorder<T(!new)>(leq: (T, T) -> bool) {
    (forall a, b :: leq(a, b) || leq(b, a)) &&
    (forall a, b, c :: leq(a, b) && leq(b, c) ==> leq(a, c))
  }

  predicate SortedBy<T>(s: seq<T>, leq: (T, T) -> bool) {
    forall i, j :: 0 <= i < j < |s| ==> leq(s[i], s[j])
  }

  function IntLeq(a: int, b: int): bool { a <= b }

  lemma IntLeqPreorder()
    ensures TotalPreorder(IntLeq)
  {
  }

  lemma StrLeqPreorder()
    ensures TotalPreorder(StrLeq)
  {
    forall a, b ensures StrLeq(a, b) || StrLeq(b, a) {
      StrLeqTotal(a, b);
    }
    forall a, b, c | StrLeq(a, b) && StrLeq(b, c) ensures StrLeq(a, c) {
      StrLeqTrans(a, b, c);
    }
  }

  /** `x` placed before the first element of `s` it does not exceed. */
  function Insert<T>(x: T, s: seq<T>, leq: (T, T) -> bool): (r: seq<T>)
    ensures multiset(r) == multiset(s) + multiset{x}
    decreases |s|
  {
    if |s| == 0 || leq(x, s[0]) then [x] + s
    else
      assert s == [s[0]] + s[1..];
      [s[0]] + Insert(x, s[1..], leq)
  }

  /** Insertion sort: a permutation of `s`, ordered when `leq` is a total preorder. */
  function SortBy<T>(s: seq<T>, leq: (T, T) -> bool): (r: seq<T>)
    ensures multiset(r) == multiset(s)
    decreases |s|
  {
    if |s| == 0 then []
    else
      assert s == s[..|s| - 1] + [s[|s| - 1]];
      Insert(s[|s| - 1], SortBy(s[..|s| - 1], leq), leq)
  }

  lemma {:induction false} InsertSorted<T(!new)>(x: T, s: seq<T>, leq: (T, T) -> bool)
    requires TotalPreorder(leq) && SortedBy(s, leq)
    ensures SortedBy(Insert(x, s, leq), leq)
    decreases |s|
  {
    if |s| > 0 && !leq(x, s[0]) {
      var t := Insert(x, s[1..], leq);
      InsertSorted(x, s[1..], leq);
      assert leq(s[0], x);
      forall k | 0 <= k < |t| ensures leq(s[0], t[k]) {
        assert t[k] in multiset(s[1..]) + multiset{x};
        if t[k] != x {
          assert t[k] in s[1..];
        }
      }
    }
  }

  lemma {:induction false} SortBySorted<T(!new)>(s: seq<T>, leq: (T, T) -> bool)
    requires TotalPreorder(leq)
    ensures SortedBy(SortBy(s, leq), leq)
    decreases |s|
  {
    if |s| > 0 {
      SortBySorted(s[..|s| - 1], leq);
      InsertSorted(s[|s| - 1], SortBy(s[..|s| - 1], leq), leq);
    }
  }

  // ---------------------------------------------------------------------
  // `sorted(d)` for a dict: its keys in ascending order.
  // ---------------------------------------------------------------------

  predicate Least(k: string, s: set<string>) {
    k in s && forall x :: x in s ==> StrLeq(k, x)
  }

  lemma {:induction false} HasLeast(s: set<string>)
    requires s != {}
    ensures exists k :: Least(k, s)
    decreases |s|
  {
    var y :| y in s;
    if s == {y} {
      StrLeqTotal(y, y);
      assert Least(y, s);
    } else {
      HasLeast(s - {y});
      var k :| Least(k, s - {y});
      StrLeqTotal(k, y);
      if StrLeq(k, y) {
        assert Least(k, s);
      } else {
        forall x | x in s ensures StrLeq(y, x) {
          if x != y { StrLeqTrans(y, k, x); } else { StrLeqTotal(y, y); }
        }
        assert Least(y, s);
      }
    }
  }

  lemma LeastUnique(s: set<string>)
    ensures forall a, b :: Least(a, s) && Least(b, s) ==> a == b
  {
    forall a, b | Least(a, s) && Least(b, s) ensures a == b {
      StrLeqAntisym(a, b);
    }
  }

  function SortedKeys(s: set<string>): (r: seq<string>)
    ensures |r| == |s|
    decreases |s|
  {
    if s == {} then []
    else
      HasLeast(s);
      LeastUnique(s);
      var k :| Least(k, s);
      [k] + SortedKeys(s - {k})
  }

  /** The least key comes first, then the others in order. */
  lemma SortedKeysUnfold(s: set<string>, k: string)
    requires Least(k, s)
    ensures SortedKeys(s) == [k] + SortedKeys(s - {k})
  {
    LeastUnique(s);
  }

  /** Every key comes out, and nothing else. */
  lemma {:induction false} SortedKeysMembers(s: set<string>)
    ensures var r := SortedKeys(s); forall x :: x in r <==> x in s
    decreases |s|
  {
    if s != {} {
      HasLeast(s);
      var k :| Least(k, s);
      SortedKeysUnfold(s, k);
      SortedKeysMembers(s - {k});
    }
  }

  /** Each string strictly below the next, so none appears twice. */
  predicate StrictlyAscending(r: seq<string>) {
    forall i, j :: 0 <= i < j < |r| ==> StrLeq(r[i], r[j]) && r[i] != r[j]
  }

  lemma ConsAscending(k: string, rest: seq<string>)
    requires StrictlyAscending(rest)
    requires forall j :: 0 <= j < |rest| ==> StrLeq(k, rest[j]) && k != rest[j]
    ensures StrictlyAscending([k] + rest)
  {
    var r := [k] + rest;
    forall i, j | 0 <= i < j < |r| ensures StrLeq(r[i], r[j]) && r[i] != r[j] {
      assert r[j] == rest[j - 1];
      if i > 0 {
        assert r[i] == rest[i - 1];
      }
    }
  }

  /** The keys come out in strictly ascending order, so each once. */
  lemma {:induction false} SortedKeysAscending(s: set<string>)
    ensures StrictlyAscending(SortedKeys(s))
    decreases |s|
  {
    if s != {} {
      HasLeast(s);
      var k :| Least(k, s);
      SortedKeysUnfold(s, k);
      var rest := SortedKeys(s - {k});
      SortedKeysAscending(s - {k});
      SortedKeysMembers(s - {k});
      forall j | 0 <= j < |rest| ensures StrLeq(k, rest[j]) && k != rest[j] {
        assert rest[j] in s - {k};
      }
      ConsAscending(k, rest);
    }
  }

  // ---------------------------------------------------------------------
  // `sorted(repair.get('turn_indices', []))`
  // ---------------------------------------------------------------------

  predicate IsStrList(xs: seq<JVal>) {
    forall k :: 0 <= k < |xs| ==> xs[k].JStr?
  }

  function Strs(xs: seq<JVal>): (r: seq<string>)
    requires IsStrList(xs)
    ensures |r| == |xs| && forall k :: 0 <= k < |xs| ==> r[k] == xs[k].s
  {
    seq(|xs|, k requires 0 <= k < |xs| => xs[k].s)
  }

  function JStrs(xs: seq<string>): (r: seq<JVal>)
    ensures |r| == |xs| && forall k :: 0 <= k < |xs| ==> r[k] == JStr(xs[k])
  {
    seq(|xs|, k requires 0 <= k < |xs| => JStr(xs[k]))
  }

  /** The one-character strings that iterating a text yields. */
  function Chars(s: string): (r: seq<string>)
    ensures |r| == |s| && forall k :: 0 <= k < |s| ==> r[k] == [s[k]]
  {
    seq(|s|, k requires 0 <= k < |s| => [s[k]])
  }

  /**
   * `sorted(v)`: the elements that iterating `v` yields, in ascending order.
   * A list of at most one element is returned as it is, since nothing is
   * compared. Integers compare with integers and strings with strings; any
   * other pair of elements raises `TypeError`, as do `None` and integers,
   * which are not iterable.
   */
  function SortedElems(v: JVal): (res: Result<seq<JVal>, Exception>)
    ensures res.Err? <==>
      (v.JNull? || v.JInt? || (v.JList? && |v.items| > 1 && !IsIntList(v) && !IsStrList(v.items)))
  {
    match v
    case JNull => Err(TypeError)
    case JInt(_) => Err(TypeError)
    case JStr(s) => Ok(JStrs(SortBy(Chars(s), StrLeq)))
    case JObj(m) => Ok(JStrs(SortedKeys(m.Keys)))
    case JList(xs) =>
      if |xs| <= 1 then Ok(xs)
      else if IsIntList(v) then Ok(JInts(SortBy(Ints(xs), IntLeq)))
      else if IsStrList(xs) then Ok(JStrs(SortBy(Strs(xs), StrLeq)))
      else Err(TypeError)
  }

  /** A list of integers comes back in ascending order, with the same elements as often. */
  lemma SortedIntList(v: JVal)
    requires IsIntList(v)
    ensures SortedElems(v).Ok? && IsIntList(JList(SortedElems(v).value))
    ensures var s := Ints(SortedElems(v).value);
      (forall i, j :: 0 <= i < j < |s| ==> s[i] <= s[j]) && multiset(s) == multiset(Ints(v.items))
  {
    var xs := v.items;
    if |xs| > 1 {
      IntLeqPreorder();
      var s := SortBy(Ints(xs), IntLeq);
      SortBySorted(Ints(xs), IntLeq);
      assert Ints(JInts(s)) == s;
    }
  }

  /** A list of strings, or the characters of a string, come back in ascending order, with the same elements as often. */
  lemma SortedStrings(v: JVal)
    requires (v.JList? && IsStrList(v.items)) || v.JStr?
    ensures SortedElems(v).Ok? && IsStrList(SortedElems(v).value)
    ensures var s := Strs(SortedElems(v).value);
      SortedBy(s, StrLeq) && multiset(s) == multiset(if v.JStr? then Chars(v.s) else Strs(v.items))
  {
    StrLeqPreorder();
    if v.JStr? {
      var s := SortBy(Chars(v.s), StrLeq);
      SortBySorted(Chars(v.s), StrLeq);
      assert Strs(JStrs(s)) == s;
    } else if |v.items| > 1 {
      var s := SortBy(Strs(v.items), StrLeq);
      SortBySorted(Strs(v.items), StrLeq);
      assert Strs(JStrs(s)) == s;
    } else if |v.items| == 1 {
      StrLeqTotal(v.items[0].s, v.items[0].s);
    }
  }

  /** A dict yields its keys, each once, in ascending order. */
  lemma SortedDictKeys(v: JVal)
    requires v.JObj?
    ensures SortedElems(v).Ok? && IsStrList(SortedElems(v).value)
    ensures var s := Strs(SortedElems(v).value);
      (forall x :: x in s <==> x in v.fields) && StrictlyAscending(s)
  {
    SortedKeysMembers(v.fields.Keys);
    SortedKeysAscending(v.fields.Keys);
    assert Strs(JStrs(SortedKeys(v.fields.Keys))) == SortedKeys(v.fields.Keys);
  }

  // ---------------------------------------------------------------------
  // normalize_repair
  // ---------------------------------------------------------------------

  /** The normalised form of a repair dict that the comparison looks at. */
  datatype Normalized = Normalized(
    repairId: JVal,
    turnIndices: seq<JVal>,
    initiation: JVal,
    resolution: JVal,
    trigger: string)

  /**
   * `normalize_repair(repair)`: `None` for anything but a dict; otherwise the
   * id, the sorted turn indices, the initiation and resolution codes (missing
   * ones as `None`) and the trigger lower-cased and stripped. The turn
   * indices are sorted before the trigger is lowered, so an unsortable list
   * raises its `TypeError` first; a trigger that is not a string raises
   * `AttributeError`.
   */
  function NormalizeRepair(v: JVal): (res: Result<Option<Normalized>, Exception>)
    ensures res == Ok(None) <==> !v.JObj?
    ensures res.Err? <==>
      (v.JObj? && (SortedElems(Get(v.fields, "turn_indices", JList([]))).Err? || !Get(v.fields, "trigger", JStr("")).JStr?))
    ensures res.Ok? && res.value.Some? ==>
      res.value.value.turnIndices == SortedElems(Get(v.fields, "turn_indices", JList([]))).value
  {
    if !v.JObj? then Ok(None)
    else
      var r := v.fields;
      var ti := SortedElems(Get(r, "turn_indices", JList([])));
      if ti.Err? then Err(ti.error)
      else
        match Get(r, "trigger", JStr(""))
        case JStr(s) =>
          Ok(Some(Normalized(Get(r, "repair_id", JNull), ti.value, Get(r, "initiation", JNull),
                             Get(r, "resolution", JNull), Text.Strip(Text.Lower(s)))))
        case _ => Err(AttributeError)
  }

  lemma StripKeepsChars(s: string)
    ensures forall k :: 0 <= k < |Text.Strip(s)| ==> Text.Strip(s)[k] in s
  {
    Text.LStripSpec(s);
    var l := Text.LStrip(s);
    Text.RStripSpec(l);
    forall k | 0 <= k < |Text.Strip(s)| ensures Text.Strip(s)[k] in s {
      assert Text.Strip(s)[k] == l[k];
      assert l[k] == s[|s| - |l| + k];
    }
  }

  /** A normalised trigger has no upper-case letter and no whitespace at either end. */
  lemma NormalizedTriggerClean(v: JVal)
    requires NormalizeRepair(v).Ok? && NormalizeRepair(v).value.Some?
    ensures var t := NormalizeRepair(v).value.value.trigger;
      (forall k :: 0 <= k < |t| ==> !Text.IsUpper(t[k])) &&
      (t == [] || (!Text.IsSpace(t[0]) && !Text.IsSpace(t[|t| - 1])))
  {
    var s := Get(v.fields, "trigger", JStr("")).s;
    var low := Text.Lower(s);
    assert forall c :: c in low ==> !Text.IsUpper(c);
    StripKeepsChars(low);
    Text.StripSpec(low);
  }

  /**
   * `[r for r in [normalize_repair(r) for r in rs] if r is not None]`: every
   * element is normalised in order, the first exception propagates, and the
   * non-dicts are dropped.
   */
  function NormalizeAll(vs: seq<JVal>): (res: Result<seq<Normalized>, Exception>)
    ensures res.Ok? <==> forall k :: 0 <= k < |vs| ==> NormalizeRepair(vs[k]).Ok?
    ensures res.Ok? ==> |res.value| <= |vs|
    decreases |vs|
  {
    if |vs| == 0 then Ok([])
    else
      var h := NormalizeRepair(vs[0]);
      if h.Err? then Err(h.error)
      else
        var t := NormalizeAll(vs[1..]);
        assert forall k :: 1 <= k < |vs| ==> vs[k] == vs[1..][k - 1];
        if t.Err? then Err(t.error)
        else Ok((if h.value.Some? then [h.value.value] else []) + t.value)
  }

  /** A list of dicts loses nothing: each is normalised in its place. */
  lemma {:induction false} NormalizeAllDicts(vs: seq<JVal>)
    requires NormalizeAll(vs).Ok? && forall k :: 0 <= k < |vs| ==> vs[k].JObj?
    ensures var r := NormalizeAll(vs).value;
      |r| == |vs| && forall k :: 0 <= k < |vs| ==> r[k] == NormalizeRepair(vs[k]).value.value
    decreases |vs|
  {
    if |vs| > 0 {
      assert forall k :: 1 <= k < |vs| ==> vs[k] == vs[1..][k - 1];
      NormalizeAllDicts(vs[1..]);
    }
  }

  // ---------------------------------------------------------------------
  // compare_repairs: the two matching passes
  // ---------------------------------------------------------------------

  /** Same turns, same initiation and same resolution. */
  predicate ExactEq(p: Normalized, a: Normalized) {
    p.turnIndices == a.turnIndices && p.initiation == a.initiation && p.resolution == a.resolution
  }

  /**
   * Whether actual `j` is a candidate for prediction `p`: an exact candidate
   * agrees with it in turns and codes, a partial one in turns only; with
   * `skipTaken`, actuals already matched are passed over.
   */
  predicate Candidate(p: Normalized, acts: seq<Normalized>, j: nat, taken: set<nat>, skipTaken: bool, exact: bool)
    requires j < |acts|
  {
    (!skipTaken || j !in taken) &&
    (if exact then ExactEq(p, acts[j]) else p.turnIndices == acts[j].turnIndices)
  }

  /** The first candidate, where the source's inner loop breaks; `None` when the loop runs out. */
  function FirstCandidate(p: Normalized, acts: seq<Normalized>, taken: set<nat>, skipTaken: bool, exact: bool, from: nat): (r: Option<nat>)
    requires from <= |acts|
    decreases |acts| - from
  {
    if from == |acts| then None
    else if Candidate(p, acts, from, taken, skipTaken, exact) then Some(from)
    else FirstCandidate(p, acts, taken, skipTaken, exact, from + 1)
  }

  /** The candidate found is the first one from `from` on, and no candidate means none at all. */
  lemma {:induction false} FirstCandidateSpec(p: Normalized, acts: seq<Normalized>, taken: set<nat>, skipTaken: bool, exact: bool, from: nat)
    requires from <= |acts|
    ensures var r := FirstCandidate(p, acts, taken, skipTaken, exact, from);
      (r.Some? ==> from <= r.value < |acts| && Candidate(p, acts, r.value, taken, skipTaken, exact)) &&
      (r.Some? ==> forall t :: from <= t < r.value ==> !Candidate(p, acts, t, taken, skipTaken, exact)) &&
      (r.None? ==> forall t :: from <= t < |acts| ==> !Candidate(p, acts, t, taken, skipTaken, exact))
    decreases |acts| - from
  {
    if from < |acts| && !Candidate(p, acts, from, taken, skipTaken, exact) {
      FirstCandidateSpec(p, acts, taken, skipTaken, exact, from + 1);
    }
  }

  /** The matches one pass has made so far: their number and the matched positions on both sides. */
  datatype Phase = Phase(count: nat, matchedPred: set<nat>, matchedActual: set<nat>)

  /** Prediction `i` matched with actual `c`, when the inner loop found one. */
  function MatchStep(q: Phase, i: nat, c: Option<nat>): Phase {
    match c
    case None => q
    case Some(j) => Phase(q.count + 1, q.matchedPred + {i}, q.matchedActual + {j})
  }

  /**
   * The exact pass over the first `i` predictions. As written, an actual
   * already matched may be matched again (`exclusive` false); the exclusive
   * pass passes over matched actuals, as the partial pass does.
   */
  function ExactUpTo(preds: seq<Normalized>, acts: seq<Normalized>, i: nat, exclusive: bool): Phase
    requires i <= |preds|
    decreases i
  {
    if i == 0 then Phase(0, {}, {})
    else
      var q := ExactUpTo(preds, acts, i - 1, exclusive);
      MatchStep(q, i - 1, FirstCandidate(preds[i - 1], acts, q.matchedActual, exclusive, true, 0))
  }

  /** The partial pass over the first `i` predictions, starting from what the exact pass matched. */
  function PartialUpTo(preds: seq<Normalized>, acts: seq<Normalized>, i: nat, pred0: set<nat>, actual0: set<nat>): Phase
    requires i <= |preds|
    decreases i
  {
    if i == 0 then Phase(0, pred0, actual0)
    else
      var q := PartialUpTo(preds, acts, i - 1, pred0, actual0);
      if i - 1 in q.matchedPred then q
      else MatchStep(q, i - 1, FirstCandidate(preds[i - 1], acts, q.matchedActual, true, false, 0))
  }

  /** The integer counts of the dict `compare_repairs` returns. */
  datatype Metrics = Metrics(
    totalPredicted: int,
    totalActual: int,
    exactMatches: int,
    partialMatches: int,
    truePositives: int,
    falsePositives: int,
    falseNegatives: int)

  /** Both passes over the normalised lists: the exact pass, then the partial pass from what it matched. */
  function Passes(preds: seq<Normalized>, acts: seq<Normalized>, exclusive: bool): (Phase, Phase) {
    var e := ExactUpTo(preds, acts, |preds|, exclusive);
    (e, PartialUpTo(preds, acts, |preds|, e.matchedPred, e.matchedActual))
  }

  /**
   * The metrics of the two passes: the true positives are the exact matches,
   * the false positives and negatives the positions neither pass matched.
   */
  function MetricsOf(totalPredicted: nat, totalActual: nat, e: Phase, q: Phase): Metrics {
    Metrics(totalPredicted, totalActual, e.count, q.count, e.count,
            totalPredicted - |q.matchedPred|, totalActual - |q.matchedActual|)
  }

  /**
   * `compare_repairs(predicted, actual)`, with the exact pass as written
   * (`exclusive` false) or exclusive. The totals count the lists as given,
   * non-dicts included.
   */
  function Compare(predicted: seq<JVal>, actual: seq<JVal>, exclusive: bool): Result<Metrics, Exception> {
    var pn := NormalizeAll(predicted);
    if pn.Err? then Err(pn.error)
    else
      var an := NormalizeAll(actual);
      if an.Err? then Err(an.error)
      else
        var (e, q) := Passes(pn.value, an.value, exclusive);
        Ok(MetricsOf(|predicted|, |actual|, e, q))
  }

  // ---------------------------------------------------------------------
  // The loops of compare_repairs
  // ---------------------------------------------------------------------

  /** The inner loop of either pass: scan the actuals and stop at the first candidate. */
  method FindMatch(p: Normalized, acts: seq<Normalized>, taken: set<nat>, skipTaken: bool, exact: bool)
    returns (r: Option<nat>)
    ensures r == FirstCandidate(p, acts, taken, skipTaken, exact, 0)
  {
    var j := 0;
    while j < |acts| && !Candidate(p, acts, j, taken, skipTaken, exact)
      invariant j <= |acts|
      invariant FirstCandidate(p, acts, taken, skipTaken, exact, 0) == FirstCandidate(p, acts, taken, skipTaken, exact, j)
    {
      j := j + 1;
    }
    r := if j < |acts| then Some(j) else None;
  }

  /** The exact pass: each prediction takes the first actual that agrees with it in turns and codes. */
  method ExactPass(preds: seq<Normalized>, acts: seq<Normalized>, exclusive: bool)
    returns (exactMatches: nat, matchedPred: set<nat>, matchedActual: set<nat>)
    ensures Phase(exactMatches, matchedPred, matchedActual) == ExactUpTo(preds, acts, |preds|, exclusive)
  {
    exactMatches, matchedPred, matchedActual := 0, {}, {};
    for i := 0 to |preds|
      invariant Phase(exactMatches, matchedPred, matchedActual) == ExactUpTo(preds, acts, i, exclusive)
    {
      var j := FindMatch(preds[i], acts, matchedActual, exclusive, true);
      if j.Some? {
        exactMatches := exactMatches + 1;
        matchedPred := matchedPred + {i};
        matchedActual := matchedActual + {j.value};
      }
    }
  }

  /** The partial pass: each unmatched prediction takes the first unmatched actual with the same turns. */
  method PartialPass(preds: seq<Normalized>, acts: seq<Normalized>, pred0: set<nat>, actual0: set<nat>)
    returns (partialMatches: nat, matchedPred: set<nat>, matchedActual: set<nat>)
    ensures Phase(partialMatches, matchedPred, matchedActual) == PartialUpTo(preds, acts, |preds|, pred0, actual0)
  {
    partialMatches, matchedPred, matchedActual := 0, pred0, actual0;
    for i := 0 to |preds|
      invariant Phase(partialMatches, matchedPred, matchedActual) == PartialUpTo(preds, acts, i, pred0, actual0)
    {
      if i !in matchedPred {
        var j := FindMatch(preds[i], acts, matchedActual, true, false);
        if j.Some? {
          partialMatches := partialMatches + 1;
          matchedPred := matchedPred + {i};
          matchedActual := matchedActual + {j.value};
        }
      }
    }
  }

  /** `compare_repairs`, pass by pass and loop by loop. */
  method CompareRepairs(predicted: seq<JVal>, actual: seq<JVal>, exclusive: bool)
    returns (res: Result<Metrics, Exception>)
    ensures res == Compare(predicted, actual, exclusive)
  {
    var pn := NormalizeAll(predicted);
    if pn.Err? {
      return Err(pn.error);
    }
    var an := NormalizeAll(actual);
    if an.Err? {
      return Err(an.error);
    }
    var preds, acts := pn.value, an.value;
    var exactMatches, exactPred, exactActual := ExactPass(preds, acts, exclusive);
    var partialMatches, matchedPred, matchedActual := PartialPass(preds, acts, exactPred, exactActual);
    var totalPred, totalActual := |predicted|, |actual|;
    res := Ok(Metrics(totalPred, totalActual, exactMatches, partialMatches, exactMatches,
                      totalPred - |matchedPred|, totalActual - |matchedActual|));
  }

  // ---------------------------------------------------------------------
  // Properties of the matching
  // ---------------------------------------------------------------------

  /** Every position in `s` is below `n`. */
  predicate AllBelow(s: set<nat>, n: nat) {
    forall x :: x in s ==> x < n
  }

  lemma AllBelowWiden(s: set<nat>, n: nat, m: nat)
    requires AllBelow(s, n) && n <= m
    ensures AllBelow(s, m) && m !in s
  {
  }

  /** A set of positions below `n` has at most `n` members. */
  lemma {:induction false} CardBelow(s: set<nat>, n: nat)
    requires AllBelow(s, n)
    ensures |s| <= n
    decreases n
  {
    if n > 0 {
      var t := s - {n - 1};
      CardBelow(t, n - 1);
    } else {
      assert s == {};
    }
  }

  /** A candidate the inner loop finds is a real actual, and one not yet taken when taken ones are skipped. */
  lemma FoundCandidate(p: Normalized, acts: seq<Normalized>, taken: set<nat>, skipTaken: bool, exact: bool)
    ensures var c := FirstCandidate(p, acts, taken, skipTaken, exact, 0);
      c.Some? ==> c.value < |acts| && (skipTaken ==> c.value !in taken)
  {
    FirstCandidateSpec(p, acts, taken, skipTaken, exact, 0);
  }

  /**
   * Matching a new prediction adds it to the matched predictions and its
   * actual to the matched actuals, which grow by one unless the actual was
   * matched already.
   */
  lemma MatchStepSpec(q: Phase, i: nat, c: Option<nat>, n: nat, m: nat)
    requires i !in q.matchedPred && i < n && (c.Some? ==> c.value < m)
    requires AllBelow(q.matchedPred, n) && AllBelow(q.matchedActual, m)
    ensures var p := MatchStep(q, i, c);
      p.count == q.count + (if c.Some? then 1 else 0) &&
      |p.matchedPred| == |q.matchedPred| + (if c.Some? then 1 else 0) &&
      |p.matchedActual| <= |q.matchedActual| + (if c.Some? then 1 else 0) &&
      (c.Some? && c.value !in q.matchedActual ==> |p.matchedActual| == |q.matchedActual| + 1) &&
      AllBelow(p.matchedPred, n) && AllBelow(p.matchedActual, m)
  {
  }

  /**
   * The exact pass matches each of the first `i` predictions at most once
   * and each match names a real actual; when it is exclusive, it never
   * matches an actual twice.
   */
  lemma {:induction false} ExactPhaseSpec(preds: seq<Normalized>, acts: seq<Normalized>, i: nat, exclusive: bool)
    requires i <= |preds|
    ensures var e := ExactUpTo(preds, acts, i, exclusive);
      |e.matchedPred| == e.count && |e.matchedActual| <= e.count &&
      (exclusive ==> |e.matchedActual| == e.count) &&
      AllBelow(e.matchedPred, i) && AllBelow(e.matchedActual, |acts|)
    decreases i
  {
    if i > 0 {
      ExactPhaseSpec(preds, acts, i - 1, exclusive);
      var q := ExactUpTo(preds, acts, i - 1, exclusive);
      FoundCandidate(preds[i - 1], acts, q.matchedActual, exclusive, true);
      var c := FirstCandidate(preds[i - 1], acts, q.matchedActual, exclusive, true, 0);
      AllBelowWiden(q.matchedPred, i - 1, i);
      MatchStepSpec(q, i - 1, c, i, |acts|);
      if exclusive && c.Some? {
        assert c.value !in q.matchedActual;
      }
    }
  }

  /**
   * The partial pass pairs a still-unmatched prediction with a
   * still-unmatched actual, so each of its matches adds one position on
   * each side.
   */
  lemma {:induction false} PartialPhaseSpec(preds: seq<Normalized>, acts: seq<Normalized>, i: nat, pred0: set<nat>, actual0: set<nat>)
    requires i <= |preds|
    requires AllBelow(pred0, |preds|) && AllBelow(actual0, |acts|)
    ensures var q := PartialUpTo(preds, acts, i, pred0, actual0);
      |q.matchedPred| == |pred0| + q.count && |q.matchedActual| == |actual0| + q.count &&
      AllBelow(q.matchedPred, |preds|) && AllBelow(q.matchedActual, |acts|)
    decreases i
  {
    if i > 0 {
      PartialPhaseSpec(preds, acts, i - 1, pred0, actual0);
      var q := PartialUpTo(preds, acts, i - 1, pred0, actual0);
      if i - 1 !in q.matchedPred {
        FoundCandidate(preds[i - 1], acts, q.matchedActual, true, false);
        var c := FirstCandidate(preds[i - 1], acts, q.matchedActual, true, false, 0);
        MatchStepSpec(q, i - 1, c, |preds|, |acts|);
      }
    }
  }

  /**
   * After both passes, every matched prediction is one of the normalised
   * ones and every matched actual one of the annotations; the predictions
   * matched are exactly as many as the matches, and the actuals at most as
   * many, exactly as many when the exact pass is exclusive.
   */
  lemma PassesSpec(preds: seq<Normalized>, acts: seq<Normalized>, exclusive: bool)
    ensures var (e, q) := Passes(preds, acts, exclusive);
      |q.matchedPred| == e.count + q.count <= |preds| &&
      |q.matchedActual| <= e.count + q.count && |q.matchedActual| <= |acts| &&
      (exclusive ==> |q.matchedActual| == e.count + q.count)
  {
    var e := ExactUpTo(preds, acts, |preds|, exclusive);
    ExactPhaseSpec(preds, acts, |preds|, exclusive);
    var q := PartialUpTo(preds, acts, |preds|, e.matchedPred, e.matchedActual);
    PartialPhaseSpec(preds, acts, |preds|, e.matchedPred, e.matchedActual);
    CardBelow(q.matchedPred, |preds|);
    CardBelow(q.matchedActual, |acts|);
  }

  /**
   * What `compare_repairs` reports, with either exact pass: the totals are
   * the lengths of the lists as given, the true positives are the exact
   * matches, the false positives are the predictions neither pass matched
   * and so never negative, and the false negatives lie between 0 and the
   * number of annotations.
   */
  lemma CompareCounts(predicted: seq<JVal>, actual: seq<JVal>, exclusive: bool)
    requires Compare(predicted, actual, exclusive).Ok?
    ensures var m := Compare(predicted, actual, exclusive).value;
      m.totalPredicted == |predicted| && m.totalActual == |actual| &&
      m.truePositives == m.exactMatches && m.exactMatches >= 0 && m.partialMatches >= 0 &&
      m.falsePositives == m.totalPredicted - m.exactMatches - m.partialMatches &&
      m.falsePositives >= 0 && 0 <= m.falseNegatives <= m.totalActual
  {
    var preds := NormalizeAll(predicted).value;
    var acts := NormalizeAll(actual).value;
    PassesSpec(preds, acts, exclusive);
  }

  /** The repair dict of the counterexample below: turn 3 only, no codes, no trigger. */
  const LoneRepair: JVal := JObj(map["turn_indices" := JList([JInt(3)])])

  lemma LoneRepairNormalized()
    ensures NormalizeAll([LoneRepair]) == Ok([Normalized(JNull, [JInt(3)], JNull, JNull, Text.Strip(Text.Lower("")))])
    ensures NormalizeAll([LoneRepair, LoneRepair]) == Ok([Normalized(JNull, [JInt(3)], JNull, JNull, Text.Strip(Text.Lower(""))), Normalized(JNull, [JInt(3)], JNull, JNull, Text.Strip(Text.Lower("")))])
  {
    assert Get(LoneRepair.fields, "turn_indices", JList([])) == JList([JInt(3)]);
    var r := Normalized(JNull, [JInt(3)], JNull, JNull, Text.Strip(Text.Lower("")));
    assert NormalizeRepair(LoneRepair) == Ok(Some(r));
    assert [LoneRepair][1..] == [];
    assert NormalizeAll([]) == Ok([]);
    assert [r] + [] == [r];
    assert NormalizeAll([LoneRepair]) == Ok([r]);
    assert [LoneRepair, LoneRepair][1..] == [LoneRepair];
    assert NormalizeAll([LoneRepair, LoneRepair]) == Ok([r] + [r]);
    assert [r] + [r] == [r, r];
  }

  /** Two identical predictions both match the one identical annotation exactly. */
  lemma DoubleExactMatch(r: Normalized)
    ensures ExactUpTo([r, r], [r], 2, false) == Phase(2, {0, 1}, {0})
  {
    assert FirstCandidate(r, [r], {}, false, true, 0) == Some(0);
    assert FirstCandidate(r, [r], {0}, false, true, 0) == Some(0);
    assert ExactUpTo([r, r], [r], 1, false) == Phase(1, {0}, {0});
  }

  /**
   * As written, the exact pass can match one annotation twice: two
   * identical predictions against a single annotation give two exact
   * matches, more true positives than there are annotations.
   */
  lemma ExactMatchesCanExceedActual()
    ensures var m := Compare([LoneRepair, LoneRepair], [LoneRepair], false);
      m.Ok? && m.value.exactMatches == 2 && m.value.totalActual == 1 && m.value.truePositives > m.value.totalActual
  {
    LoneRepairNormalized();
    var r := Normalized(JNull, [JInt(3)], JNull, JNull, Text.Strip(Text.Lower("")));
    DoubleExactMatch(r);
  }

  /**
   * With the exclusive exact pass every annotation is matched at most once
   * overall: the annotations matched are exactly as many as the matches,
   * so the true positives never exceed the annotations.
   */
  lemma ExclusiveMatchesBounded(predicted: seq<JVal>, actual: seq<JVal>)
    requires Compare(predicted, actual, true).Ok?
    ensures var m := Compare(predicted, actual, true).value;
      m.exactMatches + m.partialMatches == m.totalActual - m.falseNegatives &&
      m.truePositives <= m.totalActual
  {
    var preds := NormalizeAll(predicted).value;
    var acts := NormalizeAll(actual).value;
    PassesSpec(preds, acts, true);
  }
}
