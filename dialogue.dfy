/**
 * The turn record shared by the extractors, the pipeline and the validators:
 * `{'turn': n, 'speaker': 'learner' | 'bot', 'text': ...}`.
 */
module Dialogue {
  import opened Wrappers

  datatype Speaker = Learner | Bot

  /** One emitted turn, as the extractors create it. */
  datatype Turn = Turn(turn: int, speaker: Speaker, text: string)

  /** The turn numbers are exactly 1, 2, ..., |turns| in list order. */
  predicate NumberedFromOne(turns: seq<Turn>) {
    forall k :: 0 <= k < |turns| ==> turns[k].turn == k + 1
  }

  /**
   * The running `turn_num` counter of the extractors: the k-th emitted
   * (speaker, text) pair becomes turn k + 1.
   */
  function Number(ps: seq<(Speaker, string)>): seq<Turn>
    decreases |ps|
  {
    if |ps| == 0 then []
    else Number(ps[..|ps| - 1]) + [Turn(|ps|, ps[|ps| - 1].0, ps[|ps| - 1].1)]
  }

  /** Numbering keeps every pair, in order, and numbers them 1..n. */
  lemma {:induction false} NumberSpec(ps: seq<(Speaker, string)>)
    ensures |Number(ps)| == |ps|
    ensures forall k :: 0 <= k < |ps| ==> Number(ps)[k] == Turn(k + 1, ps[k].0, ps[k].1)
    ensures NumberedFromOne(Number(ps))
    decreases |ps|
  {
    if |ps| > 0 {
      var init := ps[..|ps| - 1];
      NumberSpec(init);
      assert forall k :: 0 <= k < |init| ==> init[k] == ps[k];
    }
  }

  /** Appending one pair appends one turn numbered after the others. */
  lemma NumberSnoc(ps: seq<(Speaker, string)>, p: (Speaker, string))
    ensures Number(ps + [p]) == Number(ps) + [Turn(|ps| + 1, p.0, p.1)]
  {
    assert (ps + [p])[..|ps|] == ps;
  }

  /**
   * A turn dictionary that later code updates in place (`turn['turn'] = i`,
   * `turn['student_id'] = ...`). Lists of these share the objects, as Python
   * lists share their dicts.
   */
  class TurnObj {
    var turn: int
    var speaker: Speaker
    var text: string
    var studentId: Option<int>

    constructor (t: Turn)
      ensures turn == t.turn && speaker == t.speaker && text == t.text && studentId == None
    {
      turn, speaker, text, studentId := t.turn, t.speaker, t.text, None;
    }

    /** The dictionary's current contents, without the optional student id. */
    function Value(): Turn
      reads this
    {
      Turn(turn, speaker, text)
    }
  }

  /** The dictionaries a list holds. */
  function Objs(ts: seq<TurnObj>): set<TurnObj> {
    set t | t in ts
  }

  /** No dictionary appears twice in the list. */
  predicate Distinct(ts: seq<TurnObj>) {
    forall i, j :: 0 <= i < j < |ts| ==> ts[i] != ts[j]
  }

  /** The current contents of the dictionaries. */
  function Values(ts: seq<TurnObj>): (r: seq<Turn>)
    reads Objs(ts)
    ensures |r| == |ts| && forall k :: 0 <= k < |ts| ==> r[k] == ts[k].Value()
    decreases |ts|
  {
    if |ts| == 0 then [] else Values(ts[..|ts| - 1]) + [ts[|ts| - 1].Value()]
  }

  /** The dictionaries a parser returns: new, one per turn. */
  method ToObjects(ts: seq<Turn>) returns (objs: seq<TurnObj>)
    ensures fresh(Objs(objs)) && Distinct(objs) && Values(objs) == ts
  {
    objs := [];
    for k := 0 to |ts|
      invariant |objs| == k && fresh(Objs(objs)) && Distinct(objs)
      invariant forall j :: 0 <= j < k ==> objs[j].Value() == ts[j]
    {
      var o := new TurnObj(ts[k]);
      assert Objs(objs + [o]) == Objs(objs) + {o};
      objs := objs + [o];
    }
  }

  lemma ObjsSlice(ts: seq<TurnObj>, lo: nat, hi: nat)
    requires lo <= hi <= |ts|
    ensures Objs(ts[lo..hi]) <= Objs(ts)
  {
    forall t | t in Objs(ts[lo..hi]) ensures t in Objs(ts) {
      var k :| lo <= k < hi && ts[k] == t;
    }
  }
}
