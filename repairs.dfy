/**
 * The repair annotations that the detection, validation, fixing and review
 * scripts exchange: JSON values as `json.load` returns them, repair dicts,
 * and the parts of a dialogue file those scripts read.
 */
module Repairs {
  import opened Wrappers

  /** A JSON value. Floating-point numbers and booleans are not modelled. */
  datatype JVal =
    | JNull
    | JInt(i: int)
    | JStr(s: string)
    | JList(items: seq<JVal>)
    | JObj(fields: map<string, JVal>)

  /** The keys and values of a repair dict. */
  type Fields = map<string, JVal>

  /** The keys every repair annotation must carry. */
  const RequiredFields: seq<string> :=
    ["repair_id", "turn_indices", "initiation", "resolution", "trigger", "evidence_summary"]

  /** `repair.get(key, default)`. */
  function Get(r: Fields, key: string, default: JVal): JVal {
    if key in r then r[key] else default
  }

  /** Python's `bool(v)`. */
  predicate Truthy(v: JVal) {
    match v
    case JNull => false
    case JInt(i) => i != 0
    case JStr(s) => s != ""
    case JList(xs) => xs != []
    case JObj(m) => m != map[]
  }

  predicate IsIntList(v: JVal) {
    v.JList? && forall k :: 0 <= k < |v.items| ==> v.items[k].JInt?
  }

  /** An empty string or object: iterating it visits nothing, although it is not a list. */
  predicate EmptyNonList(v: JVal) {
    v == JStr("") || v == JObj(map[])
  }

  function Ints(xs: seq<JVal>): (r: seq<int>)
    requires forall k :: 0 <= k < |xs| ==> xs[k].JInt?
    ensures |r| == |xs| && forall k :: 0 <= k < |xs| ==> r[k] == xs[k].i
  {
    seq(|xs|, k requires 0 <= k < |xs| => xs[k].i)
  }

  /** The JSON list that holds the integers `xs`. */
  function JInts(xs: seq<int>): (r: seq<JVal>)
    ensures |r| == |xs| && forall k :: 0 <= k < |xs| ==> r[k] == JInt(xs[k])
  {
    seq(|xs|, k requires 0 <= k < |xs| => JInt(xs[k]))
  }

  /**
   * The integers that a loop `for t in repair.get('turn_indices', [])`
   * comparing each `t` with an integer visits, or the `TypeError` it raises.
   * A missing key, an empty string and an empty object visit nothing. A list
   * of integers visits them in order. Anything else is either not iterable
   * or yields an element that cannot be ordered against an integer.
   */
  function IndicesOf(r: Fields): (res: Result<seq<int>, Exception>)
    ensures res.Ok? <==> "turn_indices" !in r || IsIntList(r["turn_indices"]) || EmptyNonList(r["turn_indices"])
    ensures res.Ok? && "turn_indices" in r && IsIntList(r["turn_indices"]) ==> res.value == Ints(r["turn_indices"].items)
    ensures res.Ok? && ("turn_indices" !in r || EmptyNonList(r["turn_indices"])) ==> res.value == []
  {
    if "turn_indices" !in r then Ok([])
    else
      var v := r["turn_indices"];
      if IsIntList(v) then Ok(Ints(v.items))
      else if EmptyNonList(v) then Ok([])
      else Err(TypeError)
  }

  /** A turn dict of a dialogue file, each of whose keys may be missing. */
  datatype DTurn = DTurn(turn: Option<int>, speaker: Option<string>, text: Option<string>)

  /** `max([t.get('turn', 0) for t in turns], default=0)`. */
  function MaxTurn(turns: seq<DTurn>): (m: int)
    ensures forall k :: 0 <= k < |turns| ==> turns[k].turn.GetOr(0) <= m
    ensures |turns| == 0 ==> m == 0
    ensures |turns| > 0 ==> exists k :: 0 <= k < |turns| && turns[k].turn.GetOr(0) == m
    decreases |turns|
  {
    if |turns| == 0 then 0
    else if |turns| == 1 then turns[0].turn.GetOr(0)
    else
      var m := MaxTurn(turns[..|turns| - 1]);
      var last := turns[|turns| - 1].turn.GetOr(0);
      if last > m then last else m
  }

  /** `any(t.get('turn') == n for t in turns)`. */
  predicate TurnExists(turns: seq<DTurn>, n: int) {
    exists k :: 0 <= k < |turns| && turns[k].turn == Some(n)
  }

  /** A repair dict that several lists may hold: an update through one list shows through the others. */
  class RepairObj {
    var fields: Fields

    constructor (fields: Fields)
      ensures this.fields == fields
    {
      this.fields := fields;
    }
  }

  /** The current contents of a list of repair dicts. */
  function FieldsOf(rs: seq<RepairObj>): (r: seq<Fields>)
    reads rs
    ensures |r| == |rs| && forall k :: 0 <= k < |rs| ==> r[k] == rs[k].fields
  {
    seq(|rs|, k reads rs requires 0 <= k < |rs| => rs[k].fields)
  }

  /** No dict appears twice in the list, as in a list `json.load` returned. */
  predicate DistinctObjs(rs: seq<RepairObj>) {
    forall j, k :: 0 <= j < k < |rs| ==> rs[j] != rs[k]
  }
}
