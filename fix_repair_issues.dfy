/**
 * `scripts/fix_repair_issues.py`: dropping out-of-range turn indices from
 * repair annotations, renumbering them, rewriting their dialogue ids, and
 * the per-file fix that picks a batch and decides whether to save.
 *
 * Repair dicts are `RepairObj` objects: a repair that passes unchanged is
 * the same object in the fixed list as in the loaded list, so updates made
 * through one list show through the other.
 */
module FixRepairIssues {
  import opened Wrappers
  import opened Repairs

  // ---------------------------------------------------------------------
  // Index filters
  // ---------------------------------------------------------------------

  predicate InTurnRange(t: int, maxTurn: int) {
    1 <= t <= maxTurn
  }

  /** `[t for t in turn_indices if 1 <= t <= max_turn]`. */
  function InRange(xs: seq<int>, maxTurn: int): seq<int>
    decreases |xs|
  {
    if |xs| == 0 then []
    else InRange(xs[..|xs| - 1], maxTurn) + (if InTurnRange(xs[|xs| - 1], maxTurn) then [xs[|xs| - 1]] else [])
  }

  /** `[t for t in turn_indices if t < 1 or t > max_turn]`. */
  function OutOfRange(xs: seq<int>, maxTurn: int): seq<int>
    decreases |xs|
  {
    if |xs| == 0 then []
    else OutOfRange(xs[..|xs| - 1], maxTurn) + (if InTurnRange(xs[|xs| - 1], maxTurn) then [] else [xs[|xs| - 1]])
  }

  /**
   * The two filters split the list: every index lands in exactly one of
   * them, each keeps only indices of its kind, and nothing is out of range
   * exactly when the in-range filter keeps the whole list.
   */
  lemma {:induction false} RangeSplit(xs: seq<int>, maxTurn: int)
    ensures |InRange(xs, maxTurn)| + |OutOfRange(xs, maxTurn)| == |xs|
    ensures forall k :: 0 <= k < |InRange(xs, maxTurn)| ==>
      InTurnRange(InRange(xs, maxTurn)[k], maxTurn) && InRange(xs, maxTurn)[k] in xs
    ensures forall k :: 0 <= k < |OutOfRange(xs, maxTurn)| ==>
      !InTurnRange(OutOfRange(xs, maxTurn)[k], maxTurn) && OutOfRange(xs, maxTurn)[k] in xs
    ensures OutOfRange(xs, maxTurn) == [] <==> InRange(xs, maxTurn) == xs
    decreases |xs|
  {
    if |xs| > 0 {
      var p := xs[..|xs| - 1];
      var x := xs[|xs| - 1];
      RangeSplit(p, maxTurn);
      assert xs == p + [x];
      var a := InRange(p, maxTurn);
      var b := OutOfRange(p, maxTurn);
      if InTurnRange(x, maxTurn) {
        assert InRange(xs, maxTurn) == a + [x];
        forall k | 0 <= k < |a + [x]| ensures (a + [x])[k] in xs {
          if k < |a| {
            assert (a + [x])[k] == a[k];
            assert a[k] in p;
          }
        }
        forall k | 0 <= k < |b| ensures b[k] in xs {
          assert b[k] in p;
        }
        if InRange(xs, maxTurn) == xs {
          assert a == p;
        }
      } else {
        assert OutOfRange(xs, maxTurn) == b + [x];
        forall k | 0 <= k < |b + [x]| ensures (b + [x])[k] in xs {
          if k < |b| {
            assert (b + [x])[k] == b[k];
            assert b[k] in p;
          }
        }
        forall k | 0 <= k < |a| ensures a[k] in xs {
          assert a[k] in p;
        }
        assert |InRange(xs, maxTurn)| < |xs|;
      }
    }
  }

  /** The in-range filter keeps indices in their original order: it distributes over concatenation. */
  lemma {:induction false} InRangeConcat(xs: seq<int>, ys: seq<int>, maxTurn: int)
    ensures InRange(xs + ys, maxTurn) == InRange(xs, maxTurn) + InRange(ys, maxTurn)
    decreases |ys|
  {
    if |ys| == 0 {
      assert xs + ys == xs;
    } else {
      var q := ys[..|ys| - 1];
      var y := ys[|ys| - 1];
      InRangeConcat(xs, q, maxTurn);
      assert (xs + ys)[..|xs + ys| - 1] == xs + q;
      assert (xs + ys)[|xs + ys| - 1] == y;
    }
  }

  /** `fixed_repair = repair.copy(); fixed_repair['turn_indices'] = valid_indices`. */
  function WithIndices(r: Fields, xs: seq<int>): Fields {
    r["turn_indices" := JList(JInts(xs))]
  }

  /** `repair['repair_id'] = idx`. */
  function WithId(r: Fields, id: nat): Fields {
    r["repair_id" := JInt(id)]
  }

  /** Writing indices and reading them back gives the same indices; nothing else changes. */
  lemma WithIndicesRoundTrip(r: Fields, xs: seq<int>)
    ensures IndicesOf(WithIndices(r, xs)) == Ok(xs)
    ensures forall key :: key != "turn_indices" ==> (key in WithIndices(r, xs) <==> key in r)
    ensures forall key :: key != "turn_indices" && key in r ==> WithIndices(r, xs)[key] == r[key]
  {
    var v := JList(JInts(xs));
    assert IsIntList(v);
    assert Ints(v.items) == xs;
  }

  /** Every repair's indices can be read: no `TypeError` in the filtering comprehension. */
  predicate AllIndexed(rs: seq<Fields>) {
    forall k :: 0 <= k < |rs| ==> IndicesOf(rs[k]).Ok?
  }

  function ValidOf(r: Fields, maxTurn: int): seq<int>
    requires IndicesOf(r).Ok?
  {
    InRange(IndicesOf(r).value, maxTurn)
  }

  /** No flag set, no position listed. */
  lemma {:induction false} WhereNoneSet(bs: seq<bool>)
    requires forall k :: 0 <= k < |bs| ==> !bs[k]
    ensures Where(bs) == []
    decreases |bs|
  {
    if |bs| > 0 {
      WhereNoneSet(bs[..|bs| - 1]);
    }
  }

  // ---------------------------------------------------------------------
  // fix_turn_indices
  // ---------------------------------------------------------------------

  /** `fix_turn_indices` keeps a repair when at least two of its indices are in range. */
  predicate KeptByFix(r: Fields, maxTurn: int)
    requires IndicesOf(r).Ok?
  {
    |ValidOf(r, maxTurn)| >= 2
  }

  // ---------------------------------------------------------------------
  // Positions picked by a filter
  // ---------------------------------------------------------------------

  /** The positions whose flag is set, in order. */
  function Where(bs: seq<bool>): seq<nat>
    decreases |bs|
  {
    if |bs| == 0 then []
    else Where(bs[..|bs| - 1]) + (if bs[|bs| - 1] then [|bs| - 1] else [])
  }

  function Negate(bs: seq<bool>): (r: seq<bool>)
    ensures |r| == |bs| && forall k :: 0 <= k < |bs| ==> r[k] == !bs[k]
  {
    seq(|bs|, k requires 0 <= k < |bs| => !bs[k])
  }

  predicate Increasing(ps: seq<nat>) {
    forall i, j :: 0 <= i < j < |ps| ==> ps[i] < ps[j]
  }

  /** `Where` lists exactly the set positions, each once, in increasing order. */
  lemma {:induction false} WhereSpec(bs: seq<bool>)
    ensures |Where(bs)| <= |bs|
    ensures Increasing(Where(bs))
    ensures forall j :: 0 <= j < |Where(bs)| ==> Where(bs)[j] < |bs| && bs[Where(bs)[j]]
    ensures forall k :: 0 <= k < |bs| && bs[k] ==> k in Where(bs)
    decreases |bs|
  {
    if |bs| > 0 {
      var p := bs[..|bs| - 1];
      WhereSpec(p);
      forall k | 0 <= k < |p| ensures p[k] == bs[k] {
      }
    }
  }

  /** The set and the unset positions together are as many as the flags. */
  lemma {:induction false} WhereCount(bs: seq<bool>)
    ensures |Where(bs)| + |Where(Negate(bs))| == |bs|
    decreases |bs|
  {
    if |bs| > 0 {
      var p := bs[..|bs| - 1];
      WhereCount(p);
      assert Negate(bs)[..|bs| - 1] == Negate(p);
    }
  }

  /** The positions set among the first `m` flags begin the positions set among all of them. */
  lemma {:induction false} WherePrefix(bs: seq<bool>, m: nat)
    requires m <= |bs|
    ensures Where(bs[..m]) <= Where(bs)
    decreases |bs|
  {
    if m < |bs| {
      var p := bs[..|bs| - 1];
      WherePrefix(p, m);
      assert p[..m] == bs[..m];
    } else {
      assert bs[..m] == bs;
    }
  }

  /** A set position `k` is listed at its rank: the number of set positions before it. */
  lemma WhereRank(bs: seq<bool>, k: nat)
    requires k < |bs| && bs[k]
    ensures |Where(bs[..k])| < |Where(bs)| && Where(bs)[|Where(bs[..k])|] == k
  {
    WherePrefix(bs, k + 1);
    assert bs[..k + 1][..k] == bs[..k];
  }

  /** When every position is listed, every flag is set and the list counts up from zero. */
  lemma {:induction false} WhereFull(bs: seq<bool>)
    requires |Where(bs)| == |bs|
    ensures forall k :: 0 <= k < |bs| ==> bs[k] && Where(bs)[k] == k
    decreases |bs|
  {
    if |bs| > 0 {
      var p := bs[..|bs| - 1];
      WhereSpec(p);
      assert bs[|bs| - 1];
      WhereFull(p);
      forall k | 0 <= k < |bs| ensures bs[k] && Where(bs)[k] == k {
        if k < |p| {
          assert p[k] == bs[k];
        }
      }
    }
  }

  // ---------------------------------------------------------------------
  // fix_turn_indices
  // ---------------------------------------------------------------------

  function KeepFlags(rs: seq<Fields>, maxTurn: int): (bs: seq<bool>)
    requires AllIndexed(rs)
    ensures |bs| == |rs| && forall k :: 0 <= k < |rs| ==> bs[k] == KeptByFix(rs[k], maxTurn)
  {
    seq(|rs|, k requires 0 <= k < |rs| => KeptByFix(rs[k], maxTurn))
  }

  /** The positions `fix_turn_indices` keeps, in order. */
  function KeptAt(rs: seq<Fields>, maxTurn: int): seq<nat>
    requires AllIndexed(rs)
  {
    Where(KeepFlags(rs, maxTurn))
  }

  /** The positions `fix_turn_indices` removes, in order. */
  function RemovedAt(rs: seq<Fields>, maxTurn: int): seq<nat>
    requires AllIndexed(rs)
  {
    Where(Negate(KeepFlags(rs, maxTurn)))
  }

  /**
   * Every repair is either kept or removed, never both: the kept and the
   * removed positions are increasing, together as many as the repairs, and
   * a position is kept exactly when two or more of its indices are in range.
   */
  lemma PartitionSpec(rs: seq<Fields>, maxTurn: int)
    requires AllIndexed(rs)
    ensures |KeptAt(rs, maxTurn)| + |RemovedAt(rs, maxTurn)| == |rs|
    ensures Increasing(KeptAt(rs, maxTurn)) && Increasing(RemovedAt(rs, maxTurn))
    ensures forall k :: 0 <= k < |rs| ==>
      (k in KeptAt(rs, maxTurn) <==> KeptByFix(rs[k], maxTurn)) &&
      (k in RemovedAt(rs, maxTurn) <==> !KeptByFix(rs[k], maxTurn))
    ensures forall j :: 0 <= j < |KeptAt(rs, maxTurn)| ==> KeptAt(rs, maxTurn)[j] < |rs|
    ensures forall j :: 0 <= j < |RemovedAt(rs, maxTurn)| ==> RemovedAt(rs, maxTurn)[j] < |rs|
  {
    var bs := KeepFlags(rs, maxTurn);
    WhereSpec(bs);
    WhereSpec(Negate(bs));
    WhereCount(bs);
  }

  /** The copies `fix_turn_indices` keeps, before renumbering. */
  function KeptCopies(rs: seq<Fields>, maxTurn: int): (r: seq<Fields>)
    requires AllIndexed(rs)
    ensures |r| == |KeptAt(rs, maxTurn)|
  {
    var ks := KeptAt(rs, maxTurn);
    PartitionSpec(rs, maxTurn);
    seq(|ks|, j requires 0 <= j < |ks| => WithIndices(rs[ks[j]], ValidOf(rs[ks[j]], maxTurn)))
  }

  /** `for idx, repair in enumerate(fixed_repairs, 1): repair['repair_id'] = idx`. */
  function Renumbered(rs: seq<Fields>): (r: seq<Fields>)
    ensures |r| == |rs|
  {
    seq(|rs|, j requires 0 <= j < |rs| => WithId(rs[j], j + 1))
  }

  /** A rewritten repair reads back the given indices and id; every other field is the original's. */
  lemma RewrittenSpec(src: Fields, valid: seq<int>, id: nat)
    ensures IndicesOf(WithId(WithIndices(src, valid), id)) == Ok(valid)
    ensures var r := WithId(WithIndices(src, valid), id);
      && "repair_id" in r && r["repair_id"] == JInt(id)
      && forall key :: key != "turn_indices" && key != "repair_id" ==>
           (key in r <==> key in src) && (key in r ==> r[key] == src[key])
  {
    WithIndicesRoundTrip(src, valid);
  }

  /**
   * A fixed repair carries the in-range indices of the repair it came from,
   * in their original order and at least two of them, and the id of its
   * position counted from 1; its other fields are those of its source.
   */
  lemma FixedRepairSpec(rs: seq<Fields>, maxTurn: int, j: nat)
    requires AllIndexed(rs) && j < |KeptAt(rs, maxTurn)|
    ensures KeptAt(rs, maxTurn)[j] < |rs|
    ensures var r := Renumbered(KeptCopies(rs, maxTurn))[j];
      var src := rs[KeptAt(rs, maxTurn)[j]];
      && IndicesOf(r) == Ok(InRange(IndicesOf(src).value, maxTurn))
      && |IndicesOf(r).value| >= 2
      && "repair_id" in r && r["repair_id"] == JInt(j + 1)
      && forall key :: key != "turn_indices" && key != "repair_id" ==>
           (key in r <==> key in src) && (key in r ==> r[key] == src[key])
  {
    WhereSpec(KeepFlags(rs, maxTurn));
    var src := rs[KeptAt(rs, maxTurn)[j]];
    var valid := ValidOf(src, maxTurn);
    assert Renumbered(KeptCopies(rs, maxTurn))[j] == WithId(WithIndices(src, valid), j + 1);
    RewrittenSpec(src, valid, j + 1);
  }

  /** Looking at one more repair appends at most one kept copy or one removed position. */
  lemma FixStep(rs: seq<Fields>, maxTurn: int)
    requires AllIndexed(rs) && |rs| > 0
    ensures AllIndexed(rs[..|rs| - 1])
    ensures var p := rs[..|rs| - 1]; var r := rs[|rs| - 1];
      && KeptCopies(rs, maxTurn) == KeptCopies(p, maxTurn) + (if KeptByFix(r, maxTurn) then [WithIndices(r, ValidOf(r, maxTurn))] else [])
      && RemovedAt(rs, maxTurn) == RemovedAt(p, maxTurn) + (if KeptByFix(r, maxTurn) then [] else [|rs| - 1])
  {
    var p := rs[..|rs| - 1];
    assert forall k :: 0 <= k < |p| ==> p[k] == rs[k];
    var bs := KeepFlags(rs, maxTurn);
    assert bs[..|bs| - 1] == KeepFlags(p, maxTurn);
    assert Negate(bs)[..|bs| - 1] == Negate(KeepFlags(p, maxTurn));
    WhereSpec(KeepFlags(p, maxTurn));
  }

  /** After the first `k` repairs: the kept copies so far and the removed repairs so far. */
  predicate SplitSoFar(rs: seq<Fields>, repairs: seq<RepairObj>, maxTurn: int, k: nat,
                       kept: seq<Fields>, removed: seq<RepairObj>)
  {
    && |rs| == |repairs| && k <= |rs| && AllIndexed(rs[..k])
    && kept == KeptCopies(rs[..k], maxTurn)
    && |removed| == |RemovedAt(rs[..k], maxTurn)|
    && forall j :: 0 <= j < |removed| ==>
         RemovedAt(rs[..k], maxTurn)[j] < k && removed[j] == repairs[RemovedAt(rs[..k], maxTurn)[j]]
  }

  /** One more readable repair extends the split by a copy or by the repair itself. */
  lemma SplitSoFarStep(rs: seq<Fields>, repairs: seq<RepairObj>, maxTurn: int, k: nat,
                       kept: seq<Fields>, removed: seq<RepairObj>)
    requires SplitSoFar(rs, repairs, maxTurn, k, kept, removed)
    requires k < |rs| && IndicesOf(rs[k]).Ok?
    ensures KeptByFix(rs[k], maxTurn) ==>
      SplitSoFar(rs, repairs, maxTurn, k + 1, kept + [WithIndices(rs[k], ValidOf(rs[k], maxTurn))], removed)
    ensures !KeptByFix(rs[k], maxTurn) ==>
      SplitSoFar(rs, repairs, maxTurn, k + 1, kept, removed + [repairs[k]])
  {
    assert rs[..k + 1][..k] == rs[..k];
    assert rs[..k + 1][k] == rs[k];
    assert AllIndexed(rs[..k + 1]);
    FixStep(rs[..k + 1], maxTurn);
  }

  /** The whole list split: the copies and removed repairs `fix_turn_indices` produces. */
  lemma SplitSoFarDone(rs: seq<Fields>, repairs: seq<RepairObj>, maxTurn: int,
                       kept: seq<Fields>, removed: seq<RepairObj>)
    requires SplitSoFar(rs, repairs, maxTurn, |rs|, kept, removed)
    ensures AllIndexed(rs) && kept == KeptCopies(rs, maxTurn)
    ensures |removed| == |RemovedAt(rs, maxTurn)|
    ensures forall j :: 0 <= j < |removed| ==>
      RemovedAt(rs, maxTurn)[j] < |repairs| && removed[j] == repairs[RemovedAt(rs, maxTurn)[j]]
  {
    assert rs[..|rs|] == rs;
  }

  /** One turn of the loop of `fix_turn_indices` on a readable repair: a fresh copy, or the repair removed. */
  method SplitAt(repairs: seq<RepairObj>, maxTurn: int, k: nat, fixed: seq<RepairObj>, removed: seq<RepairObj>,
                 ghost rs: seq<Fields>, ghost made: set<RepairObj>)
    returns (fixed2: seq<RepairObj>, removed2: seq<RepairObj>, ghost made2: set<RepairObj>)
    requires k < |repairs| && FieldsOf(repairs) == rs && IndicesOf(rs[k]).Ok?
    requires DistinctObjs(fixed) && forall j :: 0 <= j < |fixed| ==> fixed[j] in made
    requires SplitSoFar(rs, repairs, maxTurn, k, FieldsOf(fixed), removed)
    ensures DistinctObjs(fixed2) && forall j :: 0 <= j < |fixed2| ==> fixed2[j] in made2
    ensures SplitSoFar(rs, repairs, maxTurn, k + 1, FieldsOf(fixed2), removed2)
    ensures made <= made2 && fresh(made2 - made)
  {
    var r := repairs[k].fields;
    SplitSoFarStep(rs, repairs, maxTurn, k, FieldsOf(fixed), removed);
    var valid := InRange(IndicesOf(r).value, maxTurn);
    made2 := made;
    if |valid| < 2 {
      fixed2, removed2 := fixed, removed + [repairs[k]];
    } else {
      var copy := new RepairObj(WithIndices(r, valid));
      assert FieldsOf(fixed + [copy]) == FieldsOf(fixed) + [copy.fields];
      fixed2, removed2 := fixed + [copy], removed;
      made2 := made + {copy};
    }
  }

  /** The `for repair in repairs` loop of `fix_turn_indices`: fresh copies of the kept repairs and the removed ones. */
  method SplitByValid(repairs: seq<RepairObj>, maxTurn: int)
    returns (res: Result<(seq<RepairObj>, seq<RepairObj>), Exception>)
    ensures res.Err? <==> !AllIndexed(FieldsOf(repairs))
    ensures res.Err? ==> res.error == TypeError
    ensures res.Ok? ==> DistinctObjs(res.value.0) && forall j :: 0 <= j < |res.value.0| ==> fresh(res.value.0[j])
    ensures res.Ok? ==> (AllIndexed(FieldsOf(repairs)) &&
      FieldsOf(res.value.0) == KeptCopies(FieldsOf(repairs), maxTurn))
    ensures res.Ok? ==> (AllIndexed(FieldsOf(repairs)) &&
      |res.value.1| == |RemovedAt(FieldsOf(repairs), maxTurn)| &&
      forall j :: 0 <= j < |res.value.1| ==>
        RemovedAt(FieldsOf(repairs), maxTurn)[j] < |repairs| &&
        res.value.1[j] == repairs[RemovedAt(FieldsOf(repairs), maxTurn)[j]])
  {
    ghost var rs := FieldsOf(repairs);
    var fixed: seq<RepairObj> := [];
    var removed: seq<RepairObj> := [];
    ghost var made: set<RepairObj> := {};
    var k := 0;
    while k < |repairs| && IndicesOf(repairs[k].fields).Ok?
      invariant k <= |repairs| && FieldsOf(repairs) == rs
      invariant DistinctObjs(fixed) && fresh(made)
      invariant forall j :: 0 <= j < |fixed| ==> fixed[j] in made
      invariant SplitSoFar(rs, repairs, maxTurn, k, FieldsOf(fixed), removed)
    {
      fixed, removed, made := SplitAt(repairs, maxTurn, k, fixed, removed, rs, made);
      k := k + 1;
    }
    if k < |repairs| {
      assert IndicesOf(rs[k]).Err?;
      return Err(TypeError);
    }
    SplitSoFarDone(rs, repairs, maxTurn, FieldsOf(fixed), removed);
    res := Ok((fixed, removed));
  }

  /** `for idx, repair in enumerate(repairs, 1): repair['repair_id'] = idx`, in place. */
  method Renumber(repairs: seq<RepairObj>)
    requires DistinctObjs(repairs)
    modifies set j | 0 <= j < |repairs| :: repairs[j]
    ensures FieldsOf(repairs) == Renumbered(old(FieldsOf(repairs)))
  {
    ghost var before := FieldsOf(repairs);
    for i := 0 to |repairs|
      invariant forall j :: 0 <= j < i ==> repairs[j].fields == WithId(before[j], j + 1)
      invariant forall j :: i <= j < |repairs| ==> repairs[j].fields == before[j]
    {
      repairs[i].fields := WithId(repairs[i].fields, i + 1);
    }
  }

  /**
   * `fix_turn_indices`: fresh copies of the repairs with two or more
   * in-range indices, renumbered from 1, and the repairs it drops, as the
   * very dicts it was given; the given dicts are not touched. An index list
   * that cannot be compared with integers raises `TypeError`.
   */
  method FixTurnIndices(repairs: seq<RepairObj>, turns: seq<DTurn>)
    returns (res: Result<(seq<RepairObj>, seq<RepairObj>), Exception>)
    ensures res.Err? <==> !AllIndexed(FieldsOf(repairs))
    ensures res.Err? ==> res.error == TypeError
    ensures res.Ok? ==> forall j :: 0 <= j < |res.value.0| ==> fresh(res.value.0[j])
    ensures res.Ok? ==> (AllIndexed(FieldsOf(repairs)) &&
      FieldsOf(res.value.0) == Renumbered(KeptCopies(FieldsOf(repairs), MaxTurn(turns))))
    ensures res.Ok? ==> (AllIndexed(FieldsOf(repairs)) &&
      |res.value.1| == |RemovedAt(FieldsOf(repairs), MaxTurn(turns))| &&
      forall j :: 0 <= j < |res.value.1| ==>
        RemovedAt(FieldsOf(repairs), MaxTurn(turns))[j] < |repairs| &&
        res.value.1[j] == repairs[RemovedAt(FieldsOf(repairs), MaxTurn(turns))[j]])
  {
    res := SplitByValid(repairs, MaxTurn(turns));
    if res.Ok? {
      Renumber(res.value.0);
    }
  }

  // ---------------------------------------------------------------------
  // fix_dialogue_id_mismatches
  // ---------------------------------------------------------------------

  /** `fixed_repair['dialogue_id'] = expected_dialogue_id` on a copy. */
  function WithDialogueId(r: Fields, id: JVal): Fields {
    r["dialogue_id" := id]
  }

  /** The dialogue id is set, every other field is kept, and setting it again changes nothing. */
  lemma WithDialogueIdSpec(r: Fields, id: JVal)
    ensures "dialogue_id" in WithDialogueId(r, id) && WithDialogueId(r, id)["dialogue_id"] == id
    ensures forall key :: key != "dialogue_id" ==>
      (key in WithDialogueId(r, id) <==> key in r) && (key in r ==> WithDialogueId(r, id)[key] == r[key])
    ensures WithDialogueId(WithDialogueId(r, id), id) == WithDialogueId(r, id)
  {
  }

  function WithDialogueIds(rs: seq<Fields>, id: JVal): (r: seq<Fields>)
    ensures |r| == |rs|
  {
    seq(|rs|, k requires 0 <= k < |rs| => WithDialogueId(rs[k], id))
  }

  /** `fix_dialogue_id_mismatches`: fresh copies with the expected id; the given dicts are not touched. */
  method FixDialogueIdMismatches(repairs: seq<RepairObj>, expected: string) returns (fixed: seq<RepairObj>)
    ensures |fixed| == |repairs|
    ensures forall k :: 0 <= k < |fixed| ==> fresh(fixed[k])
    ensures FieldsOf(fixed) == WithDialogueIds(FieldsOf(repairs), JStr(expected))
  {
    fixed := [];
    for k := 0 to |repairs|
      invariant |fixed| == k
      invariant forall j :: 0 <= j < k ==> fresh(fixed[j])
      invariant forall j :: 0 <= j < k ==> fixed[j].fields == WithDialogueId(repairs[j].fields, JStr(expected))
    {
      var copy := new RepairObj(WithDialogueId(repairs[k].fields, JStr(expected)));
      fixed := fixed + [copy];
    }
  }

  // ---------------------------------------------------------------------
  // fix_repair_file: choosing the batch
  // ---------------------------------------------------------------------

  /** The first batch of the given name, if any. */
  function FirstNamed(shape: seq<(string, nat)>, name: string): (r: Option<nat>)
    ensures r.Some? ==> r.value < |shape| && shape[r.value].0 == name
    ensures r.Some? ==> forall i :: 0 <= i < r.value ==> shape[i].0 != name
    ensures r.None? ==> forall i :: 0 <= i < |shape| ==> shape[i].0 != name
    decreases |shape|
  {
    if |shape| == 0 then None
    else match FirstNamed(shape[..|shape| - 1], name)
      case Some(i) => Some(i)
      case None => if shape[|shape| - 1].0 == name then Some(|shape| - 1) else None
  }

  /**
   * The batch `fix_repair_file` works on, given each batch's name and
   * number of repairs: the first 'production' batch unless it is empty,
   * then the first 'validation' batch unless it is empty, then the first
   * batch; `None` when the chosen list is empty (`if not best_repairs`).
   */
  function BestBatch(shape: seq<(string, nat)>): (r: Option<nat>)
    ensures r.Some? ==> r.value < |shape| && shape[r.value].1 > 0
  {
    var p := FirstNamed(shape, "production");
    var v := FirstNamed(shape, "validation");
    if p.Some? && shape[p.value].1 > 0 then p
    else if v.Some? && shape[v.value].1 > 0 then v
    else if |shape| > 0 && shape[0].1 > 0 then Some(0)
    else None
  }

  predicate DistinctNames(shape: seq<(string, nat)>) {
    forall i, j :: 0 <= i < j < |shape| ==> shape[i].0 != shape[j].0
  }

  /**
   * With one directory per batch name: a non-empty production batch is
   * always chosen; otherwise a non-empty validation batch; nothing is chosen
   * only when neither exists and the first batch is empty too.
   */
  lemma BestBatchSpec(shape: seq<(string, nat)>)
    requires DistinctNames(shape)
    ensures (exists i :: 0 <= i < |shape| && shape[i].0 == "production" && shape[i].1 > 0) ==>
      BestBatch(shape).Some? && shape[BestBatch(shape).value].0 == "production"
    ensures (forall i :: 0 <= i < |shape| && shape[i].0 == "production" ==> shape[i].1 == 0) &&
            (exists i :: 0 <= i < |shape| && shape[i].0 == "validation" && shape[i].1 > 0) ==>
      BestBatch(shape).Some? && shape[BestBatch(shape).value].0 == "validation"
    ensures BestBatch(shape).None? <==>
      (forall i :: 0 <= i < |shape| && (shape[i].0 == "production" || shape[i].0 == "validation") ==> shape[i].1 == 0) &&
      (|shape| == 0 || shape[0].1 == 0)
  {
  }

  /** `(batch_name, len(repairs))` for each loaded batch. */
  function ShapeOf<T>(files: seq<(string, seq<T>)>): (shape: seq<(string, nat)>)
    ensures |shape| == |files|
    ensures forall i :: 0 <= i < |files| ==> shape[i] == (files[i].0, |files[i].1|)
  {
    seq(|files|, i requires 0 <= i < |files| => (files[i].0, |files[i].1|))
  }

  /** `for batch_name, repair_file, repairs in repair_files: if batch_name == name: ...; break`. */
  method FindNamed(files: seq<(string, seq<RepairObj>)>, name: string) returns (found: Option<nat>)
    ensures found == FirstNamed(ShapeOf(files), name)
  {
    ghost var shape := ShapeOf(files);
    for i := 0 to |files|
      invariant FirstNamed(shape[..i], name).None?
    {
      assert shape[..i + 1][..i] == shape[..i];
      if files[i].0 == name {
        FirstNamedPrefix(shape, i + 1, name);
        return Some(i);
      }
    }
    assert shape[..|files|] == shape;
    return None;
  }

  /** The three loops of `fix_repair_file` that pick `best_batch`. */
  method ChooseBatch(files: seq<(string, seq<RepairObj>)>) returns (best: Option<nat>)
    ensures best == BestBatch(ShapeOf(files))
  {
    best := FindNamed(files, "production");
    if best.None? || files[best.value].1 == [] {
      var validation := FindNamed(files, "validation");
      if validation.Some? {
        best := validation;
      }
    }
    if best.None? || files[best.value].1 == [] {
      if |files| == 0 || files[0].1 == [] {
        return None;
      }
      best := Some(0);
    }
  }

  /** A batch found among the first `m` is the first of its name among all of them. */
  lemma {:induction false} FirstNamedPrefix(shape: seq<(string, nat)>, m: nat, name: string)
    requires m <= |shape| && FirstNamed(shape[..m], name).Some?
    ensures FirstNamed(shape, name) == FirstNamed(shape[..m], name)
    decreases |shape|
  {
    if m < |shape| {
      assert shape[..|shape| - 1][..m] == shape[..m];
      FirstNamedPrefix(shape[..|shape| - 1], m, name);
    } else {
      assert shape[..m] == shape;
    }
  }

  // ---------------------------------------------------------------------
  // fix_repair_file: fixing the chosen list
  // ---------------------------------------------------------------------

  /** What the `for repair in best_repairs` loop does with one repair. */
  datatype Decision =
    | AsIs               // no invalid index: the dict itself goes into `fixed_repairs`
    | Copy(valid: seq<int>)  // a copy with the in-range indices goes in
    | Drop               // fewer than two in-range indices: left out

  function DecisionOf(r: Fields, maxTurn: int): Decision
    requires IndicesOf(r).Ok?
  {
    var xs := IndicesOf(r).value;
    if OutOfRange(xs, maxTurn) == [] then AsIs
    else if |InRange(xs, maxTurn)| >= 2 then Copy(InRange(xs, maxTurn))
    else Drop
  }

  /**
   * A repair passes as is exactly when all its indices are in range; a copy
   * keeps its in-range indices, at least two and fewer than it had; among
   * repairs with an invalid index, `fix_repair_file` keeps the same ones
   * `fix_turn_indices` keeps.
   */
  lemma DecisionSpec(r: Fields, maxTurn: int)
    requires IndicesOf(r).Ok?
    ensures var xs := IndicesOf(r).value;
      DecisionOf(r, maxTurn).AsIs? <==> forall k :: 0 <= k < |xs| ==> InTurnRange(xs[k], maxTurn)
    ensures DecisionOf(r, maxTurn).Copy? ==>
      DecisionOf(r, maxTurn).valid == ValidOf(r, maxTurn) &&
      2 <= |DecisionOf(r, maxTurn).valid| < |IndicesOf(r).value|
    ensures !DecisionOf(r, maxTurn).AsIs? ==> (DecisionOf(r, maxTurn).Copy? <==> KeptByFix(r, maxTurn))
  {
    var xs := IndicesOf(r).value;
    RangeSplit(xs, maxTurn);
    if OutOfRange(xs, maxTurn) != [] {
      var t := OutOfRange(xs, maxTurn)[0];
      assert t in xs && !InTurnRange(t, maxTurn);
    }
  }

  /** The messages of `fix_repair_file`, each carrying the values it formats. */
  datatype FixIssue =
    | InvalidIndices(repairId: JVal, invalid: seq<int>, maxTurn: int)
    | TooFewValid(repairId: JVal)
    | Failed(error: Exception)

  datatype FixNote =
    | KeptValid(repairId: JVal, valid: seq<int>)
    | Saved(batch: string)

  function RepairIssues(r: Fields, maxTurn: int): seq<FixIssue>
    requires IndicesOf(r).Ok?
  {
    var id := Get(r, "repair_id", JNull);
    match DecisionOf(r, maxTurn)
    case AsIs => []
    case Copy(_) => [InvalidIndices(id, OutOfRange(IndicesOf(r).value, maxTurn), maxTurn)]
    case Drop => [InvalidIndices(id, OutOfRange(IndicesOf(r).value, maxTurn), maxTurn), TooFewValid(id)]
  }

  function RepairNotes(r: Fields, maxTurn: int): seq<FixNote>
    requires IndicesOf(r).Ok?
  {
    match DecisionOf(r, maxTurn)
    case Copy(valid) => [KeptValid(Get(r, "repair_id", JNull), valid)]
    case _ => []
  }

  /** `result['issues_found']` after the loop over the given repairs. */
  function ScanIssues(rs: seq<Fields>, maxTurn: int): seq<FixIssue>
    requires AllIndexed(rs)
    decreases |rs|
  {
    if |rs| == 0 then []
    else ScanIssues(rs[..|rs| - 1], maxTurn) + RepairIssues(rs[|rs| - 1], maxTurn)
  }

  /** `result['issues_fixed']` after the loop over the given repairs. */
  function ScanNotes(rs: seq<Fields>, maxTurn: int): seq<FixNote>
    requires AllIndexed(rs)
    decreases |rs|
  {
    if |rs| == 0 then []
    else ScanNotes(rs[..|rs| - 1], maxTurn) + RepairNotes(rs[|rs| - 1], maxTurn)
  }

  /** Every repair is either passed as is or dropped. */
  predicate NoCopy(rs: seq<Fields>, maxTurn: int)
    requires AllIndexed(rs)
  {
    forall k :: 0 <= k < |rs| ==> !DecisionOf(rs[k], maxTurn).Copy?
  }

  lemma ScanStep(rs: seq<Fields>, maxTurn: int)
    requires AllIndexed(rs) && |rs| > 0
    ensures AllIndexed(rs[..|rs| - 1])
    ensures AllAsIs(rs, maxTurn) <==> AllAsIs(rs[..|rs| - 1], maxTurn) && DecisionOf(rs[|rs| - 1], maxTurn).AsIs?
    ensures NoCopy(rs, maxTurn) <==> NoCopy(rs[..|rs| - 1], maxTurn) && !DecisionOf(rs[|rs| - 1], maxTurn).Copy?
  {
    var p := rs[..|rs| - 1];
    assert forall k :: 0 <= k < |p| ==> p[k] == rs[k];
  }

  /** No issue is reported exactly when every repair passes as is. */
  lemma {:induction false} ScanIssuesEmpty(rs: seq<Fields>, maxTurn: int)
    requires AllIndexed(rs)
    ensures ScanIssues(rs, maxTurn) == [] <==> AllAsIs(rs, maxTurn)
    decreases |rs|
  {
    if |rs| > 0 {
      ScanStep(rs, maxTurn);
      ScanIssuesEmpty(rs[..|rs| - 1], maxTurn);
    }
  }

  /** No fix note is recorded exactly when no repair is copied. */
  lemma {:induction false} ScanNotesEmpty(rs: seq<Fields>, maxTurn: int)
    requires AllIndexed(rs)
    ensures ScanNotes(rs, maxTurn) == [] <==> NoCopy(rs, maxTurn)
    decreases |rs|
  {
    if |rs| > 0 {
      ScanStep(rs, maxTurn);
      ScanNotesEmpty(rs[..|rs| - 1], maxTurn);
    }
  }

  /** How many repairs the loop gets through before an index list raises `TypeError`. */
  function FirstUnindexed(rs: seq<Fields>): (u: nat)
    ensures u <= |rs| && AllIndexed(rs[..u])
    ensures u < |rs| ==> IndicesOf(rs[u]).Err?
    ensures u == |rs| <==> AllIndexed(rs)
    decreases |rs|
  {
    if |rs| == 0 then 0
    else
      var p := rs[..|rs| - 1];
      var u := FirstUnindexed(p);
      assert p[..u] == rs[..u];
      if u < |p| then u
      else if IndicesOf(rs[|rs| - 1]).Ok? then (assert rs[..|rs|] == rs; |rs|)
      else |rs| - 1
  }

  function StayFlags(rs: seq<Fields>, maxTurn: int): (bs: seq<bool>)
    requires AllIndexed(rs)
    ensures |bs| == |rs| && forall k :: 0 <= k < |rs| ==> bs[k] == !DecisionOf(rs[k], maxTurn).Drop?
  {
    seq(|rs|, k requires 0 <= k < |rs| => !DecisionOf(rs[k], maxTurn).Drop?)
  }

  /** The positions of `best_repairs` that end up in `fixed_repairs`, in order. */
  function FixedFrom(rs: seq<Fields>, maxTurn: int): seq<nat>
    requires AllIndexed(rs)
  {
    Where(StayFlags(rs, maxTurn))
  }

  /** The number of repairs before position `k` that end up in `fixed_repairs`. */
  function Rank(rs: seq<Fields>, maxTurn: int, k: nat): nat
    requires AllIndexed(rs) && k <= |rs|
  {
    |Where(StayFlags(rs, maxTurn)[..k])|
  }

  /** The entry `fixed_repairs` holds for a repair that stays, before the id updates. */
  function BaseOf(r: Fields, maxTurn: int): Fields
    requires IndicesOf(r).Ok?
  {
    match DecisionOf(r, maxTurn)
    case Copy(valid) => WithIndices(r, valid)
    case _ => r
  }

  /** `if repair.get('dialogue_id') != expected_dialogue_id: repair['dialogue_id'] = expected_dialogue_id`. */
  function FixDialogueId(r: Fields, expected: JVal): Fields {
    if Get(r, "dialogue_id", JNull) != expected then WithDialogueId(r, expected) else r
  }

  /** The dialogue-id loop then the renumbering, for the entry at position `id - 1`. */
  function Finish(r: Fields, expected: JVal, id: nat): Fields {
    WithId(FixDialogueId(r, expected), id)
  }

  /** Both update loops over a whole list. */
  function Finished(vs: seq<Fields>, expected: JVal): (ws: seq<Fields>)
    ensures |ws| == |vs|
  {
    seq(|vs|, j requires 0 <= j < |vs| => Finish(vs[j], expected, j + 1))
  }

  /** The entries of `fixed_repairs` before the id updates. */
  function BaseValues(rs: seq<Fields>, maxTurn: int): (vs: seq<Fields>)
    requires AllIndexed(rs)
    ensures |vs| == |FixedFrom(rs, maxTurn)|
  {
    var ps := FixedFrom(rs, maxTurn);
    WhereSpec(StayFlags(rs, maxTurn));
    seq(|ps|, j requires 0 <= j < |ps| => BaseOf(rs[ps[j]], maxTurn))
  }

  /** The final contents of `fixed_repairs`. */
  function FixedValues(rs: seq<Fields>, maxTurn: int, expected: JVal): (vs: seq<Fields>)
    requires AllIndexed(rs)
    ensures |vs| == |FixedFrom(rs, maxTurn)|
  {
    Finished(BaseValues(rs, maxTurn), expected)
  }

  /**
   * The contents of `best_repairs` once the updates are done: a repair that
   * passed as is is the same dict as its entry in `fixed_repairs` and shows
   * the same updates; the others are untouched.
   */
  function BestAfter(rs: seq<Fields>, maxTurn: int, expected: JVal): (vs: seq<Fields>)
    requires AllIndexed(rs)
    ensures |vs| == |rs|
  {
    seq(|rs|, k requires 0 <= k < |rs| =>
      if DecisionOf(rs[k], maxTurn).AsIs? then Finish(rs[k], expected, Rank(rs, maxTurn, k) + 1) else rs[k])
  }

  /** When every repair stays, `fixed_repairs` lines up with `best_repairs`. */
  lemma AllStay(rs: seq<Fields>, maxTurn: int)
    requires AllIndexed(rs) && |FixedFrom(rs, maxTurn)| == |rs|
    ensures forall k :: 0 <= k < |rs| ==>
      !DecisionOf(rs[k], maxTurn).Drop? && FixedFrom(rs, maxTurn)[k] == k && Rank(rs, maxTurn, k) == k
  {
    var bs := StayFlags(rs, maxTurn);
    WhereFull(bs);
    forall k | 0 <= k < |rs| ensures Rank(rs, maxTurn, k) == k {
      WhereRank(bs, k);
    }
  }

  /** Every repair passes as is. */
  predicate AllAsIs(rs: seq<Fields>, maxTurn: int)
    requires AllIndexed(rs)
  {
    forall k :: 0 <= k < |rs| ==> DecisionOf(rs[k], maxTurn).AsIs?
  }

  /** When no repair has an invalid index, every repair stays. */
  lemma NoneInvalidAllStay(rs: seq<Fields>, maxTurn: int)
    requires AllIndexed(rs) && AllAsIs(rs, maxTurn)
    ensures |FixedFrom(rs, maxTurn)| == |rs|
  {
    var bs := StayFlags(rs, maxTurn);
    WhereCount(bs);
    WhereNoneSet(Negate(bs));
  }

  /** A copied repair never equals the original: it holds fewer indices. */
  lemma CopyDiffers(r: Fields, maxTurn: int, expected: JVal, id: nat)
    requires IndicesOf(r).Ok? && DecisionOf(r, maxTurn).Copy?
    ensures Finish(WithIndices(r, DecisionOf(r, maxTurn).valid), expected, id) != r
  {
    var valid := DecisionOf(r, maxTurn).valid;
    var xs := IndicesOf(r).value;
    DecisionSpec(r, maxTurn);
    var f := Finish(WithIndices(r, valid), expected, id);
    assert f["turn_indices"] == JList(JInts(valid));
    assert "turn_indices" in r && IsIntList(r["turn_indices"]);
    assert |r["turn_indices"].items| == |xs|;
  }

  /** When every repair stays, the `k`-th fixed entry comes from the `k`-th repair, and so does its shared entry. */
  lemma AlignedAt(rs: seq<Fields>, maxTurn: int, expected: JVal, k: nat)
    requires AllIndexed(rs) && |FixedFrom(rs, maxTurn)| == |rs| && k < |rs|
    ensures !DecisionOf(rs[k], maxTurn).Drop?
    ensures FixedValues(rs, maxTurn, expected)[k] == Finish(BaseOf(rs[k], maxTurn), expected, k + 1)
    ensures BestAfter(rs, maxTurn, expected)[k] ==
      if DecisionOf(rs[k], maxTurn).AsIs? then Finish(rs[k], expected, k + 1) else rs[k]
  {
    AllStay(rs, maxTurn);
    FixedValuesAt(rs, maxTurn, expected, k);
  }

  /** With no invalid index, `fixed_repairs` holds every repair in place, updated, and shares all of them with `best_repairs`. */
  lemma AllAsIsValues(rs: seq<Fields>, maxTurn: int, expected: JVal)
    requires AllIndexed(rs) && AllAsIs(rs, maxTurn)
    ensures |FixedValues(rs, maxTurn, expected)| == |rs|
    ensures forall k :: 0 <= k < |rs| ==> FixedValues(rs, maxTurn, expected)[k] == Finish(rs[k], expected, k + 1)
    ensures FixedValues(rs, maxTurn, expected) == BestAfter(rs, maxTurn, expected)
  {
    NoneInvalidAllStay(rs, maxTurn);
    forall k | 0 <= k < |rs|
      ensures FixedValues(rs, maxTurn, expected)[k] == Finish(rs[k], expected, k + 1)
      ensures BestAfter(rs, maxTurn, expected)[k] == Finish(rs[k], expected, k + 1)
    {
      AlignedAt(rs, maxTurn, expected, k);
    }
  }

  /** A repair with an invalid index makes `fixed_repairs` differ both from the shared list and from the loaded one. */
  lemma InvalidValuesDiffer(rs: seq<Fields>, maxTurn: int, expected: JVal, k: nat)
    requires AllIndexed(rs) && k < |rs| && !DecisionOf(rs[k], maxTurn).AsIs?
    ensures FixedValues(rs, maxTurn, expected) != BestAfter(rs, maxTurn, expected)
    ensures FixedValues(rs, maxTurn, expected) != rs
  {
    if |FixedFrom(rs, maxTurn)| == |rs| {
      AlignedAt(rs, maxTurn, expected, k);
      CopyDiffers(rs[k], maxTurn, expected, k + 1);
    }
  }

  /**
   * As written, `fixed_repairs != best_repairs` compares two lists that
   * share every repair that passed as is, after the updates: it holds
   * exactly when some repair had an invalid index. Dialogue-id and
   * renumbering fixes alone are never seen.
   */
  lemma AsWrittenChangedIff(rs: seq<Fields>, maxTurn: int, expected: JVal)
    requires AllIndexed(rs)
    ensures FixedValues(rs, maxTurn, expected) != BestAfter(rs, maxTurn, expected) <==> !AllAsIs(rs, maxTurn)
  {
    if AllAsIs(rs, maxTurn) {
      AllAsIsValues(rs, maxTurn, expected);
    } else {
      var k :| 0 <= k < |rs| && !DecisionOf(rs[k], maxTurn).AsIs?;
      InvalidValuesDiffer(rs, maxTurn, expected, k);
    }
  }

  /**
   * Compared with the list as loaded, the fixed list differs exactly when
   * some repair had an invalid index or the updates change some repair's
   * dialogue id or id.
   */
  lemma SnapshotChangedIff(rs: seq<Fields>, maxTurn: int, expected: JVal)
    requires AllIndexed(rs)
    ensures FixedValues(rs, maxTurn, expected) != rs <==>
      !AllAsIs(rs, maxTurn) || exists k :: 0 <= k < |rs| && Finish(rs[k], expected, k + 1) != rs[k]
  {
    if AllAsIs(rs, maxTurn) {
      AllAsIsValues(rs, maxTurn, expected);
    } else {
      var k :| 0 <= k < |rs| && !DecisionOf(rs[k], maxTurn).AsIs?;
      InvalidValuesDiffer(rs, maxTurn, expected, k);
    }
  }

  /** The updates leave the indices alone, set the expected dialogue id, and set the id. */
  lemma FinishSpec(r: Fields, expected: JVal, id: nat)
    ensures IndicesOf(Finish(r, expected, id)) == IndicesOf(r)
    ensures Get(Finish(r, expected, id), "dialogue_id", JNull) == expected
    ensures "repair_id" in Finish(r, expected, id) && Finish(r, expected, id)["repair_id"] == JInt(id)
  {
    var f := Finish(r, expected, id);
    assert ("turn_indices" in f <==> "turn_indices" in r) && ("turn_indices" in r ==> f["turn_indices"] == r["turn_indices"]);
  }

  /** An entry that stays carries only in-range indices. */
  lemma BaseSpec(r: Fields, maxTurn: int)
    requires IndicesOf(r).Ok? && !DecisionOf(r, maxTurn).Drop?
    ensures IndicesOf(BaseOf(r, maxTurn)).Ok?
    ensures forall i :: 0 <= i < |IndicesOf(BaseOf(r, maxTurn)).value| ==> InTurnRange(IndicesOf(BaseOf(r, maxTurn)).value[i], maxTurn)
  {
    DecisionSpec(r, maxTurn);
    if DecisionOf(r, maxTurn).Copy? {
      var valid := DecisionOf(r, maxTurn).valid;
      WithIndicesRoundTrip(r, valid);
      RangeSplit(IndicesOf(r).value, maxTurn);
    }
  }

  /**
   * What the fixed list holds: every entry's indices can be read and are
   * all in range, its dialogue id is the expected one, and entries are
   * numbered 1, 2, ... in order.
   */
  lemma FixedValuesSpec(rs: seq<Fields>, maxTurn: int, expected: JVal, j: nat)
    requires AllIndexed(rs) && j < |FixedValues(rs, maxTurn, expected)|
    ensures var r := FixedValues(rs, maxTurn, expected)[j];
      && IndicesOf(r).Ok?
      && (forall i :: 0 <= i < |IndicesOf(r).value| ==> InTurnRange(IndicesOf(r).value[i], maxTurn))
      && Get(r, "dialogue_id", JNull) == expected
      && "repair_id" in r && r["repair_id"] == JInt(j + 1)
  {
    WhereSpec(StayFlags(rs, maxTurn));
    var src := rs[FixedFrom(rs, maxTurn)[j]];
    var base := BaseOf(src, maxTurn);
    assert BaseValues(rs, maxTurn)[j] == base;
    BaseSpec(src, maxTurn);
    FinishSpec(base, expected, j + 1);
  }

  datatype FixAction = NoAction | Fixed

  /**
   * The `result` dict of `fix_repair_file` and the save it makes: the
   * messages found and fixed, the action, and the batch whose repair file
   * is rewritten with which list.
   */
  datatype FixResult = FixResult(
    found: seq<FixIssue>,
    fixes: seq<FixNote>,
    action: FixAction,
    written: Option<(string, seq<Fields>)>)

  /**
   * `fix_repair_file` on the loaded batches. `snapshot` chooses the
   * comparison that decides whether anything changed: against the
   * repairs as they were loaded (`true`), or, as the script does, against
   * `best_repairs` after the updates made through the shared dicts (`false`).
   */
  function FixOutcome(files: seq<(string, seq<Fields>)>, expected: JVal, maxTurn: int, dryRun: bool, snapshot: bool): FixResult
  {
    match BestBatch(ShapeOf(files))
    case None => FixResult([], [], NoAction, None)
    case Some(b) => BatchOutcome(files[b].0, files[b].1, expected, maxTurn, dryRun, snapshot)
  }

  /** `fix_repair_file` once `best_batch` is chosen, on its name and repairs. */
  function BatchOutcome(name: string, rs: seq<Fields>, expected: JVal, maxTurn: int, dryRun: bool, snapshot: bool): FixResult
  {
    var u := FirstUnindexed(rs);
    if u < |rs| then
      FixResult(ScanIssues(rs[..u], maxTurn) + [Failed(TypeError)], ScanNotes(rs[..u], maxTurn), NoAction, None)
    else
      var fixed := FixedValues(rs, maxTurn, expected);
      var changed := if snapshot then fixed != rs else fixed != BestAfter(rs, maxTurn, expected);
      var save := changed && !dryRun;
      FixResult(
        ScanIssues(rs, maxTurn),
        ScanNotes(rs, maxTurn) + (if save then [Saved(name)] else []),
        if changed then Fixed else NoAction,
        if save then Some((name, fixed)) else None)
  }

  /**
   * A dry run never writes; anything written is the fixed list of the
   * chosen batch; an unreadable index list stops the run with `TypeError`
   * and no action. As written, the action is 'fixed' exactly when the
   * chosen list has a repair with an invalid index; comparing with the
   * loaded list, it is 'fixed' also when only ids change.
   */
  lemma FixOutcomeSpec(files: seq<(string, seq<Fields>)>, expected: JVal, maxTurn: int, dryRun: bool, snapshot: bool)
    ensures var res := FixOutcome(files, expected, maxTurn, dryRun, snapshot);
      && (res.written.Some? ==> !dryRun && res.action == Fixed)
      && (res.action == Fixed && !dryRun ==> res.written.Some?)
      && (BestBatch(ShapeOf(files)).None? ==> res == FixResult([], [], NoAction, None))
    ensures var res := FixOutcome(files, expected, maxTurn, dryRun, snapshot);
      BestBatch(ShapeOf(files)).Some? ==>
        var b := BestBatch(ShapeOf(files)).value;
        var rs := files[b].1;
        && (!AllIndexed(rs) <==> (|res.found| > 0 && res.found[|res.found| - 1] == Failed(TypeError)))
        && (!AllIndexed(rs) ==> res.action == NoAction)
        && (AllIndexed(rs) ==> res.found == ScanIssues(rs, maxTurn))
        && (AllIndexed(rs) && res.written.Some? ==> res.written.value == (files[b].0, FixedValues(rs, maxTurn, expected)))
        && (AllIndexed(rs) && !snapshot ==> (res.action == Fixed <==> !AllAsIs(rs, maxTurn)))
        && (AllIndexed(rs) && snapshot ==> (res.action == Fixed <==>
              !AllAsIs(rs, maxTurn) || exists k :: 0 <= k < |rs| && Finish(rs[k], expected, k + 1) != rs[k]))
  {
    var res := FixOutcome(files, expected, maxTurn, dryRun, snapshot);
    if BestBatch(ShapeOf(files)).Some? {
      var b := BestBatch(ShapeOf(files)).value;
      var rs := files[b].1;
      if AllIndexed(rs) {
        AsWrittenChangedIff(rs, maxTurn, expected);
        SnapshotChangedIff(rs, maxTurn, expected);
        ScanIssuesEmpty(rs, maxTurn);
        assert rs[..|rs|] == rs;
        if |res.found| > 0 {
          var last := res.found[|res.found| - 1];
          ScanIssuesLast(rs, maxTurn);
        }
      }
    }
  }

  /** The loop never reports a failure for a readable repair. */
  lemma {:induction false} ScanIssuesLast(rs: seq<Fields>, maxTurn: int)
    requires AllIndexed(rs)
    ensures forall i :: 0 <= i < |ScanIssues(rs, maxTurn)| ==> !ScanIssues(rs, maxTurn)[i].Failed?
    decreases |rs|
  {
    if |rs| > 0 {
      var p := rs[..|rs| - 1];
      assert AllIndexed(p) by {
        assert forall k :: 0 <= k < |p| ==> p[k] == rs[k];
      }
      ScanIssuesLast(p, maxTurn);
    }
  }

  /**
   * A repair whose indices are all in range but whose dialogue id is
   * stale: the script reports no action and writes nothing, while the
   * comparison with the loaded list saves the corrected id.
   */
  lemma IdOnlyFixLost()
    ensures var r := map["turn_indices" := JList([JInt(1), JInt(2)]), "dialogue_id" := JStr("S1_W1_T1"), "repair_id" := JInt(1)];
      var files := [("production", [r])];
      && FixOutcome(files, JStr("W1_T1"), 2, false, false) == FixResult([], [], NoAction, None)
      && FixOutcome(files, JStr("W1_T1"), 2, false, true) ==
           FixResult([], [Saved("production")], Fixed, Some(("production", [WithId(WithDialogueId(r, JStr("W1_T1")), 1)])))
  {
    var r := map["turn_indices" := JList([JInt(1), JInt(2)]), "dialogue_id" := JStr("S1_W1_T1"), "repair_id" := JInt(1)];
    var rs := [r];
    var files := [("production", rs)];
    assert ShapeOf(files) == [("production", 1)];
    assert FirstNamed(ShapeOf(files), "production") == Some(0);
    assert BestBatch(ShapeOf(files)) == Some(0);
    assert IsIntList(r["turn_indices"]);
    var ints := Ints(r["turn_indices"].items);
    assert ints[0] == 1 && ints[1] == 2;
    assert ints == [1, 2];
    assert IndicesOf(r) == Ok([1, 2]);
    assert [1, 2][..1] == [1];
    assert OutOfRange([1], 2) == [];
    assert OutOfRange([1, 2], 2) == [];
    assert DecisionOf(r, 2) == AsIs;
    assert AllIndexed(rs);
    assert FirstUnindexed(rs) == 1;
    assert AllAsIs(rs, 2);
    AllAsIsValues(rs, 2, JStr("W1_T1"));
    ScanIssuesEmpty(rs, 2);
    ScanNotesEmpty(rs, 2);
    var e := JStr("W1_T1");
    var fixed := FixedValues(rs, 2, e);
    var f := WithId(WithDialogueId(r, e), 1);
    assert Get(r, "dialogue_id", JNull) != e;
    assert Finish(r, e, 1) == f;
    assert fixed == [f];
    assert f["dialogue_id"] == e;
    assert fixed != rs;
    BatchOutcomeRead("production", rs, e, 2, false, false, false);
    BatchOutcomeRead("production", rs, e, 2, false, true, true);
  }

  // ---------------------------------------------------------------------
  // fix_repair_file on repair dicts
  // ---------------------------------------------------------------------

  /** For each entry of `fixed_repairs`: whether it is the loaded dict itself rather than a copy. */
  function SharedFlags(rs: seq<Fields>, maxTurn: int): (bs: seq<bool>)
    requires AllIndexed(rs)
    ensures |bs| == |FixedFrom(rs, maxTurn)|
  {
    var ps := FixedFrom(rs, maxTurn);
    WhereSpec(StayFlags(rs, maxTurn));
    seq(|ps|, j requires 0 <= j < |ps| => DecisionOf(rs[ps[j]], maxTurn).AsIs?)
  }

  /** Looking at one more repair adds its position to the kept positions when it stays. */
  lemma FixedFromStep(rs: seq<Fields>, maxTurn: int)
    requires AllIndexed(rs) && |rs| > 0
    ensures AllIndexed(rs[..|rs| - 1])
    ensures FixedFrom(rs, maxTurn) == FixedFrom(rs[..|rs| - 1], maxTurn) +
      (if !DecisionOf(rs[|rs| - 1], maxTurn).Drop? then [|rs| - 1] else [])
  {
    var p := rs[..|rs| - 1];
    assert forall k :: 0 <= k < |p| ==> p[k] == rs[k];
    var bs := StayFlags(rs, maxTurn);
    assert bs[..|bs| - 1] == StayFlags(p, maxTurn);
  }

  /** Looking at one more repair extends the fixed list by at most one entry. */
  lemma StayStep(rs: seq<Fields>, maxTurn: int)
    requires AllIndexed(rs) && |rs| > 0
    ensures AllIndexed(rs[..|rs| - 1])
    ensures var p := rs[..|rs| - 1]; var r := rs[|rs| - 1];
      var stays := !DecisionOf(r, maxTurn).Drop?;
      && FixedFrom(rs, maxTurn) == FixedFrom(p, maxTurn) + (if stays then [|rs| - 1] else [])
      && BaseValues(rs, maxTurn) == BaseValues(p, maxTurn) + (if stays then [BaseOf(r, maxTurn)] else [])
      && SharedFlags(rs, maxTurn) == SharedFlags(p, maxTurn) + (if stays then [DecisionOf(r, maxTurn).AsIs?] else [])
  {
    FixedFromStep(rs, maxTurn);
    BaseValuesStep(rs, maxTurn);
    SharedFlagsStep(rs, maxTurn);
  }

  /** The kept contents, one repair further. */
  lemma BaseValuesStep(rs: seq<Fields>, maxTurn: int)
    requires AllIndexed(rs) && |rs| > 0 && AllIndexed(rs[..|rs| - 1])
    ensures var p := rs[..|rs| - 1]; var r := rs[|rs| - 1];
      BaseValues(rs, maxTurn) == BaseValues(p, maxTurn) + (if !DecisionOf(r, maxTurn).Drop? then [BaseOf(r, maxTurn)] else [])
  {
    var p := rs[..|rs| - 1];
    FixedFromStep(rs, maxTurn);
    WhereSpec(StayFlags(p, maxTurn));
    var qs := FixedFrom(p, maxTurn);
    var vs := BaseValues(rs, maxTurn);
    forall j | 0 <= j < |qs|
      ensures vs[j] == BaseValues(p, maxTurn)[j]
    {
      assert rs[qs[j]] == p[qs[j]];
    }
    assert vs[..|qs|] == BaseValues(p, maxTurn);
  }

  /** The sharing flags, one repair further. */
  lemma SharedFlagsStep(rs: seq<Fields>, maxTurn: int)
    requires AllIndexed(rs) && |rs| > 0 && AllIndexed(rs[..|rs| - 1])
    ensures var p := rs[..|rs| - 1]; var r := rs[|rs| - 1];
      SharedFlags(rs, maxTurn) == SharedFlags(p, maxTurn) + (if !DecisionOf(r, maxTurn).Drop? then [DecisionOf(r, maxTurn).AsIs?] else [])
  {
    var p := rs[..|rs| - 1];
    FixedFromStep(rs, maxTurn);
    WhereSpec(StayFlags(p, maxTurn));
    var qs := FixedFrom(p, maxTurn);
    var fs := SharedFlags(rs, maxTurn);
    forall j | 0 <= j < |qs|
      ensures fs[j] == SharedFlags(p, maxTurn)[j]
    {
      assert rs[qs[j]] == p[qs[j]];
    }
    assert fs[..|qs|] == SharedFlags(p, maxTurn);
  }

  /**
   * What the loop has built so far: the messages, and for each entry of
   * `fixed_repairs` the position it comes from, its contents, and whether it
   * is the loaded dict itself.
   */
  datatype ScanState = ScanState(
    found: seq<FixIssue>,
    notes: seq<FixNote>,
    src: seq<nat>,
    kept: seq<Fields>,
    shared: seq<bool>)

  /** One turn of the loop, on the repair at position `k`. */
  function Advance(s: ScanState, r: Fields, k: nat, maxTurn: int): ScanState
    requires IndicesOf(r).Ok?
  {
    var d := DecisionOf(r, maxTurn);
    ScanState(
      s.found + RepairIssues(r, maxTurn),
      s.notes + RepairNotes(r, maxTurn),
      if d.Drop? then s.src else s.src + [k],
      if d.Drop? then s.kept else s.kept + [BaseOf(r, maxTurn)],
      if d.Drop? then s.shared else s.shared + [d.AsIs?])
  }

  /** The loop run over the given repairs. */
  function ScanStateOf(rs: seq<Fields>, maxTurn: int): ScanState
    requires AllIndexed(rs)
    decreases |rs|
  {
    if |rs| == 0 then ScanState([], [], [], [], [])
    else Advance(ScanStateOf(rs[..|rs| - 1], maxTurn), rs[|rs| - 1], |rs| - 1, maxTurn)
  }

  /** The loop's state is the messages, positions, contents and kinds the position functions describe. */
  lemma {:induction false} ScanStateOfSpec(rs: seq<Fields>, maxTurn: int)
    requires AllIndexed(rs)
    ensures ScanStateOf(rs, maxTurn) == ScanState(ScanIssues(rs, maxTurn), ScanNotes(rs, maxTurn),
      FixedFrom(rs, maxTurn), BaseValues(rs, maxTurn), SharedFlags(rs, maxTurn))
    decreases |rs|
  {
    if |rs| > 0 {
      StayStep(rs, maxTurn);
      ScanStateOfSpec(rs[..|rs| - 1], maxTurn);
    }
  }

  /** Running the loop one repair further. */
  lemma ScanStateOfNext(rs: seq<Fields>, k: nat, maxTurn: int)
    requires k < |rs| && AllIndexed(rs[..k]) && IndicesOf(rs[k]).Ok?
    ensures AllIndexed(rs[..k + 1])
    ensures ScanStateOf(rs[..k + 1], maxTurn) == Advance(ScanStateOf(rs[..k], maxTurn), rs[k], k, maxTurn)
  {
    assert rs[..k + 1][..k] == rs[..k];
    assert rs[..k + 1][k] == rs[k];
    assert forall i :: 0 <= i < k ==> rs[..k + 1][i] == rs[..k][i];
  }

  /** A readable prefix followed by an unreadable repair: the loop stops there. */
  lemma StopsAt(rs: seq<Fields>, k: nat)
    requires k < |rs| && AllIndexed(rs[..k]) && IndicesOf(rs[k]).Err?
    ensures FirstUnindexed(rs) == k
  {
    var u := FirstUnindexed(rs);
    assert forall i :: 0 <= i < k ==> rs[..k][i] == rs[i];
    assert forall i :: 0 <= i < u ==> rs[..u][i] == rs[i];
  }

  /**
   * One turn of the `for repair in best_repairs` loop on a repair whose
   * indices can be read: the entry it adds to `fixed_repairs` (the dict
   * itself, a fresh copy, or none) and the messages it adds.
   */
  method ScanOne(repair: RepairObj, maxTurn: int)
    returns (entry: Option<RepairObj>, issues: seq<FixIssue>, fixes: seq<FixNote>)
    requires IndicesOf(repair.fields).Ok?
    ensures issues == RepairIssues(repair.fields, maxTurn) && fixes == RepairNotes(repair.fields, maxTurn)
    ensures entry.None? <==> DecisionOf(repair.fields, maxTurn).Drop?
    ensures entry.Some? ==> entry.value.fields == BaseOf(repair.fields, maxTurn)
    ensures DecisionOf(repair.fields, maxTurn).AsIs? ==> entry == Some(repair)
    ensures DecisionOf(repair.fields, maxTurn).Copy? ==> entry.Some? && fresh(entry.value)
  {
    var r := repair.fields;
    var ti := IndicesOf(r).value;
    var invalid := OutOfRange(ti, maxTurn);
    var id := Get(r, "repair_id", JNull);
    if invalid != [] {
      issues := [InvalidIndices(id, invalid, maxTurn)];
      var valid := InRange(ti, maxTurn);
      if |valid| >= 2 {
        var copy := new RepairObj(WithIndices(r, valid));
        entry := Some(copy);
        fixes := [KeptValid(id, valid)];
      } else {
        issues := issues + [TooFewValid(id)];
        entry := None;
        fixes := [];
      }
    } else {
      entry := Some(repair);
      issues := [];
      fixes := [];
    }
  }

  /**
   * Object identity of the entries of `fixed_repairs`: each comes from a
   * position before `k`; an entry flagged as shared is the loaded dict at
   * that position, any other is none of the loaded dicts.
   */
  ghost predicate Tracks(best: seq<RepairObj>, fixed: seq<RepairObj>, src: seq<nat>, shared: seq<bool>, k: nat) {
    && |src| == |fixed| && |shared| == |fixed| && DistinctObjs(fixed)
    && (forall j :: 0 <= j < |fixed| ==> src[j] < k)
    && (forall j :: 0 <= j < |fixed| ==> shared[j] ==> src[j] < |best| && fixed[j] == best[src[j]])
    && (forall j :: 0 <= j < |fixed| ==> !shared[j] ==> fixed[j] !in best)
  }

  /** Appending the entry for position `k` keeps the identities tracked. */
  lemma TracksAdd(best: seq<RepairObj>, fixed: seq<RepairObj>, src: seq<nat>, shared: seq<bool>, k: nat, e: RepairObj, flag: bool)
    requires DistinctObjs(best) && k < |best| && Tracks(best, fixed, src, shared, k)
    requires flag ==> e == best[k]
    requires !flag ==> e !in best && e !in fixed
    ensures Tracks(best, fixed + [e], src + [k], shared + [flag], k + 1)
  {
    if flag {
      forall j | 0 <= j < |fixed|
        ensures fixed[j] != e
      {
        assert shared[j] ==> src[j] != k;
      }
    }
  }

  /** The only entry that can be the loaded dict at position `k` is one flagged as shared and taken from `k`. */
  lemma TracksAt(best: seq<RepairObj>, fixed: seq<RepairObj>, src: seq<nat>, shared: seq<bool>, u: nat, k: nat)
    requires DistinctObjs(best) && Tracks(best, fixed, src, shared, u) && k < |best|
    ensures forall j :: 0 <= j < |fixed| && fixed[j] == best[k] ==> shared[j] && src[j] == k
  {
    forall j | 0 <= j < |fixed| && fixed[j] == best[k]
      ensures shared[j] && src[j] == k
    {
      assert fixed[j] in best;
    }
  }

  /**
   * What the `for repair in best_repairs` loop has built after `k` readable
   * repairs: the messages and the contents of `fixed_repairs` are those of
   * the scan state, the entries' identities are tracked, and `made` holds
   * the copies.
   */
  ghost predicate ScanInv(rs: seq<Fields>, best: seq<RepairObj>, maxTurn: int, k: nat, st: ScanState,
                          found: seq<FixIssue>, notes: seq<FixNote>, kept: seq<Fields>,
                          fixed: seq<RepairObj>, made: set<RepairObj>)
  {
    && k <= |rs| && AllIndexed(rs[..k]) && st == ScanStateOf(rs[..k], maxTurn)
    && found == st.found && notes == st.notes && kept == st.kept
    && Tracks(best, fixed, st.src, st.shared, k)
    && forall j :: 0 <= j < |fixed| && !st.shared[j] ==> fixed[j] in made
  }

  /** One turn of the loop, on a repair whose indices can be read. */
  method ScanAt(best: seq<RepairObj>, maxTurn: int, k: nat, fixed: seq<RepairObj>, found: seq<FixIssue>, notes: seq<FixNote>,
                ghost rs: seq<Fields>, ghost st: ScanState, ghost made: set<RepairObj>)
    returns (fixed2: seq<RepairObj>, found2: seq<FixIssue>, notes2: seq<FixNote>, ghost st2: ScanState, ghost made2: set<RepairObj>)
    requires DistinctObjs(best) && FieldsOf(best) == rs && k < |best| && IndicesOf(rs[k]).Ok?
    requires ScanInv(rs, best, maxTurn, k, st, found, notes, FieldsOf(fixed), fixed, made)
    ensures ScanInv(rs, best, maxTurn, k + 1, st2, found2, notes2, FieldsOf(fixed2), fixed2, made2)
    ensures made <= made2 && fresh(made2 - made)
  {
    ScanStateOfNext(rs, k, maxTurn);
    var entry, issues, fixes := ScanOne(best[k], maxTurn);
    found2 := found + issues;
    notes2 := notes + fixes;
    st2 := Advance(st, rs[k], k, maxTurn);
    made2 := made;
    if entry.Some? {
      TracksAdd(best, fixed, st.src, st.shared, k, entry.value, DecisionOf(rs[k], maxTurn).AsIs?);
      assert FieldsOf(fixed + [entry.value]) == FieldsOf(fixed) + [entry.value.fields];
      fixed2 := fixed + [entry.value];
      if !DecisionOf(rs[k], maxTurn).AsIs? {
        made2 := made + {entry.value};
      }
    } else {
      fixed2 := fixed;
    }
  }

  /**
   * The `for repair in best_repairs` loop: the entries of `fixed_repairs`
   * (each either the loaded dict itself or a fresh copy) and the messages,
   * up to the first repair whose indices raise `TypeError`.
   */
  method ScanBest(best: seq<RepairObj>, maxTurn: int)
    returns (fixed: seq<RepairObj>, found: seq<FixIssue>, notes: seq<FixNote>, u: nat, ghost made: set<RepairObj>)
    requires DistinctObjs(best)
    ensures u == FirstUnindexed(FieldsOf(best))
    ensures found == ScanStateOf(FieldsOf(best)[..u], maxTurn).found + (if u < |best| then [Failed(TypeError)] else [])
    ensures notes == ScanStateOf(FieldsOf(best)[..u], maxTurn).notes
    ensures var st := ScanStateOf(FieldsOf(best)[..u], maxTurn);
      && FieldsOf(fixed) == st.kept && Tracks(best, fixed, st.src, st.shared, u)
      && (forall j :: 0 <= j < |fixed| && !st.shared[j] ==> fixed[j] in made)
    ensures fresh(made)
  {
    ghost var rs := FieldsOf(best);
    ghost var st := ScanState([], [], [], [], []);
    fixed := [];
    found := [];
    notes := [];
    made := {};
    var k := 0;
    while k < |best| && IndicesOf(best[k].fields).Ok?
      invariant k <= |best| && FieldsOf(best) == rs && fresh(made)
      invariant ScanInv(rs, best, maxTurn, k, st, found, notes, FieldsOf(fixed), fixed, made)
    {
      fixed, found, notes, st, made := ScanAt(best, maxTurn, k, fixed, found, notes, rs, st, made);
      k := k + 1;
    }
    u := k;
    if u < |best| {
      StopsAt(rs, k);
      found := found + [Failed(TypeError)];
    } else {
      assert rs[..u] == rs;
    }
  }

  /** The dialogue-id loop and the renumbering loop of `fix_repair_file`, in place. */
  method UpdateIds(fixed: seq<RepairObj>, expected: JVal)
    requires DistinctObjs(fixed)
    modifies set j | 0 <= j < |fixed| :: fixed[j]
    ensures FieldsOf(fixed) == Finished(old(FieldsOf(fixed)), expected)
  {
    ghost var before := FieldsOf(fixed);
    for i := 0 to |fixed|
      invariant forall j :: 0 <= j < i ==> fixed[j].fields == FixDialogueId(before[j], expected)
      invariant forall j :: i <= j < |fixed| ==> fixed[j].fields == before[j]
    {
      if Get(fixed[i].fields, "dialogue_id", JNull) != expected {
        fixed[i].fields := WithDialogueId(fixed[i].fields, expected);
      }
    }
    Renumber(fixed);
  }

  /**
   * The chosen list after the updates, from where its dicts sit: a dict that
   * passed as is holds its entry of `fixed_repairs`, the others are as loaded.
   */
  lemma BestAfterFrom(rs: seq<Fields>, maxTurn: int, expected: JVal, fixedVals: seq<Fields>, now: seq<Fields>)
    requires AllIndexed(rs) && |now| == |rs|
    requires fixedVals == FixedValues(rs, maxTurn, expected)
    requires forall k :: 0 <= k < |rs| ==>
      if DecisionOf(rs[k], maxTurn).AsIs?
      then Rank(rs, maxTurn, k) < |fixedVals| && now[k] == fixedVals[Rank(rs, maxTurn, k)]
      else now[k] == rs[k]
    ensures now == BestAfter(rs, maxTurn, expected)
  {
    var after := BestAfter(rs, maxTurn, expected);
    forall k | 0 <= k < |rs| && DecisionOf(rs[k], maxTurn).AsIs?
      ensures now[k] == after[k]
    {
      AsIsEntry(rs, maxTurn, expected, k);
    }
  }

  /** The entry of `fixed_repairs` for a repair that passed as is: the repair itself, updated. */
  lemma AsIsEntry(rs: seq<Fields>, maxTurn: int, expected: JVal, k: nat)
    requires AllIndexed(rs) && k < |rs| && DecisionOf(rs[k], maxTurn).AsIs?
    ensures var j := Rank(rs, maxTurn, k);
      j < |FixedFrom(rs, maxTurn)| && FixedFrom(rs, maxTurn)[j] == k
      && FixedValues(rs, maxTurn, expected)[j] == Finish(rs[k], expected, j + 1)
  {
    WhereRank(StayFlags(rs, maxTurn), k);
    FixedValuesAt(rs, maxTurn, expected, Rank(rs, maxTurn, k));
  }

  /** Entry `j` of `fixed_repairs`: the repair it comes from, as kept, then updated. */
  lemma FixedValuesAt(rs: seq<Fields>, maxTurn: int, expected: JVal, j: nat)
    requires AllIndexed(rs) && j < |FixedFrom(rs, maxTurn)|
    ensures FixedFrom(rs, maxTurn)[j] < |rs|
    ensures FixedValues(rs, maxTurn, expected)[j] == Finish(BaseOf(rs[FixedFrom(rs, maxTurn)[j]], maxTurn), expected, j + 1)
  {
    WhereSpec(StayFlags(rs, maxTurn));
    assert BaseValues(rs, maxTurn)[j] == BaseOf(rs[FixedFrom(rs, maxTurn)[j]], maxTurn);
  }

  /**
   * The dialogue-id and renumbering loops run on `fixed_repairs`, seen
   * through the chosen list: `made` holds the copies, the other entries are
   * the list's own dicts.
   */
  method FinishFixes(best: seq<RepairObj>, fixed: seq<RepairObj>, maxTurn: int, expected: JVal, ghost made: set<RepairObj>)
    requires DistinctObjs(best) && AllIndexed(FieldsOf(best))
    requires FieldsOf(fixed) == BaseValues(FieldsOf(best), maxTurn)
    requires Tracks(best, fixed, FixedFrom(FieldsOf(best), maxTurn), SharedFlags(FieldsOf(best), maxTurn), |best|)
    requires forall j :: 0 <= j < |fixed| && !SharedFlags(FieldsOf(best), maxTurn)[j] ==> fixed[j] in made
    modifies (set k | 0 <= k < |best| :: best[k]), made
    ensures FieldsOf(fixed) == FixedValues(old(FieldsOf(best)), maxTurn, expected)
    ensures FieldsOf(best) == BestAfter(old(FieldsOf(best)), maxTurn, expected)
  {
    ghost var rs := FieldsOf(best);
    ghost var ps := FixedFrom(rs, maxTurn);
    ghost var shared := SharedFlags(rs, maxTurn);
    WhereSpec(StayFlags(rs, maxTurn));
    assert forall j :: 0 <= j < |fixed| ==> shared[j] == DecisionOf(rs[ps[j]], maxTurn).AsIs?;
    forall k | 0 <= k < |best| && !DecisionOf(rs[k], maxTurn).AsIs?
      ensures best[k] !in fixed
    {
      TracksAt(best, fixed, ps, shared, |best|, k);
    }
    UpdateIds(fixed, expected);
    ghost var now := FieldsOf(best);
    forall k | 0 <= k < |best|
      ensures if DecisionOf(rs[k], maxTurn).AsIs?
        then Rank(rs, maxTurn, k) < |fixed| && now[k] == FieldsOf(fixed)[Rank(rs, maxTurn, k)]
        else now[k] == rs[k]
    {
      if DecisionOf(rs[k], maxTurn).AsIs? {
        WhereRank(StayFlags(rs, maxTurn), k);
        assert fixed[Rank(rs, maxTurn, k)] == best[k];
      }
    }
    BestAfterFrom(rs, maxTurn, expected, FieldsOf(fixed), now);
  }

  /**
   * The body of `fix_repair_file` on the chosen list: the fixed list and the
   * messages, and the chosen list's dicts as the updates leave them (a dict
   * that passed as is shows its updates; the others are untouched).
   */
  method ApplyFixes(best: seq<RepairObj>, maxTurn: int, expected: JVal)
    returns (fixed: seq<RepairObj>, found: seq<FixIssue>, notes: seq<FixNote>, u: nat)
    requires DistinctObjs(best)
    modifies set k | 0 <= k < |best| :: best[k]
    ensures u == FirstUnindexed(old(FieldsOf(best)))
    ensures found == ScanIssues(old(FieldsOf(best))[..u], maxTurn) + (if u < |best| then [Failed(TypeError)] else [])
    ensures notes == ScanNotes(old(FieldsOf(best))[..u], maxTurn)
    ensures u < |best| ==> FieldsOf(best) == old(FieldsOf(best))
    ensures u == |best| ==> (AllIndexed(old(FieldsOf(best))) &&
      FieldsOf(fixed) == FixedValues(old(FieldsOf(best)), maxTurn, expected) &&
      FieldsOf(best) == BestAfter(old(FieldsOf(best)), maxTurn, expected))
  {
    ghost var rs := FieldsOf(best);
    ghost var made;
    fixed, found, notes, u, made := ScanBest(best, maxTurn);
    ScanStateOfSpec(rs[..u], maxTurn);
    if u == |best| {
      assert rs[..u] == rs;
      FinishFixes(best, fixed, maxTurn, expected, made);
    }
  }

  /** Every repair dict of every loaded batch. */
  function AllObjs(files: seq<(string, seq<RepairObj>)>): set<RepairObj> {
    set i, k | 0 <= i < |files| && 0 <= k < |files[i].1| :: files[i].1[k]
  }

  /** The current contents of the loaded batches. */
  function FilesFields(files: seq<(string, seq<RepairObj>)>): (r: seq<(string, seq<Fields>)>)
    reads AllObjs(files)
    ensures |r| == |files| && forall i :: 0 <= i < |files| ==> r[i] == (files[i].0, FieldsOf(files[i].1))
  {
    seq(|files|, i reads AllObjs(files) requires 0 <= i < |files| => (files[i].0, FieldsOf(files[i].1)))
  }

  /** When every index list can be read, the outcome turns on the comparison alone. */
  lemma BatchOutcomeRead(name: string, rs: seq<Fields>, expected: JVal, maxTurn: int, dryRun: bool, snapshot: bool, changed: bool)
    requires AllIndexed(rs)
    requires changed == if snapshot then FixedValues(rs, maxTurn, expected) != rs
      else FixedValues(rs, maxTurn, expected) != BestAfter(rs, maxTurn, expected)
    ensures var save := changed && !dryRun;
      BatchOutcome(name, rs, expected, maxTurn, dryRun, snapshot) == FixResult(
        ScanIssues(rs[..|rs|], maxTurn),
        ScanNotes(rs[..|rs|], maxTurn) + (if save then [Saved(name)] else []),
        if changed then Fixed else NoAction,
        if save then Some((name, FixedValues(rs, maxTurn, expected))) else None)
  {
    assert rs[..|rs|] == rs;
    assert FirstUnindexed(rs) == |rs|;
  }

  /**
   * `fix_repair_file` as written, once `best_batch` is chosen. It compares
   * `fixed_repairs` with `best_repairs` after the updates made through the
   * dicts the two lists share.
   */
  method FixBatchAsWritten(name: string, best: seq<RepairObj>, expected: JVal, maxTurn: int, dryRun: bool)
    returns (result: FixResult)
    requires DistinctObjs(best)
    modifies set k | 0 <= k < |best| :: best[k]
    ensures result == BatchOutcome(name, old(FieldsOf(best)), expected, maxTurn, dryRun, false)
  {
    ghost var rs := FieldsOf(best);
    var fixed, found, notes, u := ApplyFixes(best, maxTurn, expected);
    if u < |best| {
      return FixResult(found, notes, NoAction, None);
    }
    var changed := FieldsOf(fixed) != FieldsOf(best);
    BatchOutcomeRead(name, rs, expected, maxTurn, dryRun, false, changed);
    result := FixResult(found, notes, if changed then Fixed else NoAction, None);
    if changed && !dryRun {
      result := result.(fixes := notes + [Saved(name)], written := Some((name, FieldsOf(fixed))));
    }
  }

  /**
   * `fix_repair_file` once `best_batch` is chosen, comparing with a snapshot
   * of `best_repairs` taken before the updates.
   */
  method FixBatch(name: string, best: seq<RepairObj>, expected: JVal, maxTurn: int, dryRun: bool)
    returns (result: FixResult)
    requires DistinctObjs(best)
    modifies set k | 0 <= k < |best| :: best[k]
    ensures result == BatchOutcome(name, old(FieldsOf(best)), expected, maxTurn, dryRun, true)
  {
    var snapshot := FieldsOf(best);
    var fixed, found, notes, u := ApplyFixes(best, maxTurn, expected);
    if u < |best| {
      return FixResult(found, notes, NoAction, None);
    }
    var changed := FieldsOf(fixed) != snapshot;
    BatchOutcomeRead(name, snapshot, expected, maxTurn, dryRun, true, changed);
    result := FixResult(found, notes, if changed then Fixed else NoAction, None);
    if changed && !dryRun {
      result := result.(fixes := notes + [Saved(name)], written := Some((name, FieldsOf(fixed))));
    }
  }

  /**
   * `fix_repair_file` as written, on the loaded batches `(batch_name,
   * repairs)`, the dialogue's `dialogue_id` (or its file name) and turns.
   */
  method FixRepairFileAsWritten(files: seq<(string, seq<RepairObj>)>, expected: JVal, turns: seq<DTurn>, dryRun: bool)
    returns (result: FixResult)
    requires forall i :: 0 <= i < |files| ==> DistinctObjs(files[i].1)
    modifies AllObjs(files)
    ensures result == FixOutcome(old(FilesFields(files)), expected, MaxTurn(turns), dryRun, false)
  {
    ghost var vals := FilesFields(files);
    var maxTurn := MaxTurn(turns);
    assert ShapeOf(vals) == ShapeOf(files);
    var chosen := ChooseBatch(files);
    if chosen.None? {
      return FixResult([], [], NoAction, None);
    }
    var b := chosen.value;
    assert vals[b] == (files[b].0, FieldsOf(files[b].1));
    result := FixBatchAsWritten(files[b].0, files[b].1, expected, maxTurn, dryRun);
  }

  /**
   * `fix_repair_file` with the comparison made against a snapshot of the
   * chosen list taken before the updates, so that dialogue-id and
   * renumbering fixes are saved too.
   */
  method FixRepairFile(files: seq<(string, seq<RepairObj>)>, expected: JVal, turns: seq<DTurn>, dryRun: bool)
    returns (result: FixResult)
    requires forall i :: 0 <= i < |files| ==> DistinctObjs(files[i].1)
    modifies AllObjs(files)
    ensures result == FixOutcome(old(FilesFields(files)), expected, MaxTurn(turns), dryRun, true)
  {
    ghost var vals := FilesFields(files);
    var maxTurn := MaxTurn(turns);
    assert ShapeOf(vals) == ShapeOf(files);
    var chosen := ChooseBatch(files);
    if chosen.None? {
      return FixResult([], [], NoAction, None);
    }
    var b := chosen.value;
    assert vals[b] == (files[b].0, FieldsOf(files[b].1));
    result := FixBatch(files[b].0, files[b].1, expected, maxTurn, dryRun);
  }
}
