/** Raw payloads as they come out of `json.load`, and the two clean-ups applied to
    them before validation: `replace_empty_objects_with_null` (a pure recursive
    rewrite) and `CCBaseModel.set_empty_dicts_to_none` (an in-place overwrite of
    one dictionary's entries). */
module Payload {

  /** A JSON value. A dictionary keeps its entries in insertion order, as a Python dict does.
      The keys of a dictionary stand for a Python dict's keys and so are meant to be
      distinct (`Keys(entries)` without repeats); no operation here relies on it. */
  datatype Json =
    | JNull
    | JBool(b: bool)
    | JInt(i: int)
    | JFloat(r: real)
    | JStr(s: string)
    | JList(items: seq<Json>)
    | JDict(entries: seq<(string, Json)>)

  /** Python's `bool(v)`: `None`, `False`, zero and empty containers are falsy. */
  predicate Truthy(v: Json)
  {
    match v
    case JNull => false
    case JBool(b) => b
    case JInt(i) => i != 0
    case JFloat(r) => r != 0.0
    case JStr(s) => s != ""
    case JList(xs) => xs != []
    case JDict(es) => es != []
  }

  function Keys(entries: seq<(string, Json)>): (ks: seq<string>)
    ensures |ks| == |entries|
    ensures forall i :: 0 <= i < |entries| ==> ks[i] == entries[i].0
  {
    seq(|entries|, i requires 0 <= i < |entries| => entries[i].0)
  }

  /** `all(value is None for value in d.values())`; true of the empty dict. */
  predicate AllNone(entries: seq<(string, Json)>)
  {
    forall i :: 0 <= i < |entries| ==> entries[i].1 == JNull
  }

  // ---------------------------------------------------------------------------
  // replace_empty_objects_with_null

  /** A dict whose values are all `None` (the empty dict included) becomes `None`;
      any other dict keeps its keys, in order, with every value rewritten; a list is
      rewritten element by element and is never itself replaced; anything else is
      returned as it is. The all-`None` test looks at the values BEFORE they are
      rewritten. */
  function ReplaceEmptyObjectsWithNull(data: Json): (r: Json)
    ensures !data.JDict? && !data.JList? ==> r == data
    ensures data.JDict? ==> (r == JNull <==> AllNone(data.entries))
    ensures data.JDict? && !AllNone(data.entries) ==>
              r.JDict? && Keys(r.entries) == Keys(data.entries)
    ensures data.JDict? && !AllNone(data.entries) ==>
              forall i :: 0 <= i < |data.entries| ==>
                r.entries[i] == (data.entries[i].0, ReplaceEmptyObjectsWithNull(data.entries[i].1))
    ensures data.JList? ==> r.JList? && |r.items| == |data.items|
    ensures data.JList? ==>
              forall i :: 0 <= i < |data.items| ==> r.items[i] == ReplaceEmptyObjectsWithNull(data.items[i])
  {
    match data
    case JDict(es) =>
      if AllNone(es) then JNull
      else JDict(seq(|es|, i requires 0 <= i < |es| => (es[i].0, ReplaceEmptyObjectsWithNull(es[i].1))))
    case JList(xs) =>
      JList(seq(|xs|, i requires 0 <= i < |xs| => ReplaceEmptyObjectsWithNull(xs[i])))
    case _ => data
  }

  /** No dict anywhere inside `data` has only `None` values. */
  predicate NoAllNoneDict(data: Json)
  {
    match data
    case JDict(es) => !AllNone(es) && forall i :: 0 <= i < |es| ==> NoAllNoneDict(es[i].1)
    case JList(xs) => forall i :: 0 <= i < |xs| ==> NoAllNoneDict(xs[i])
    case _ => true
  }

  /** The fixed points of the rewrite are exactly the values with no all-`None` dict
      inside them. */
  lemma {:induction false} ReplaceFixedPoints(data: Json)
    ensures ReplaceEmptyObjectsWithNull(data) == data <==> NoAllNoneDict(data)
  {
    match data
    case JDict(es) =>
      if !AllNone(es) {
        var r := ReplaceEmptyObjectsWithNull(data);
        forall i | 0 <= i < |es| ensures ReplaceEmptyObjectsWithNull(es[i].1) == es[i].1 <==> NoAllNoneDict(es[i].1) {
          ReplaceFixedPoints(es[i].1);
        }
        if r == data {
          forall i | 0 <= i < |es| ensures NoAllNoneDict(es[i].1) {
            assert r.entries[i] == es[i];
          }
        }
        if NoAllNoneDict(data) {
          assert r.entries == es;
        }
      }
    case JList(xs) =>
      var r := ReplaceEmptyObjectsWithNull(data);
      forall i | 0 <= i < |xs| ensures ReplaceEmptyObjectsWithNull(xs[i]) == xs[i] <==> NoAllNoneDict(xs[i]) {
        ReplaceFixedPoints(xs[i]);
      }
      if r == data {
        forall i | 0 <= i < |xs| ensures NoAllNoneDict(xs[i]) {
          assert r.items[i] == xs[i];
        }
      }
      if NoAllNoneDict(data) {
        assert r.items == xs;
      }
    case _ =>
  }

  /** A list of `None` values is rewritten to itself, not to `None`, although the
      function's documentation says lists of only `None` are replaced too. */
  lemma AllNoneListKept(n: nat)
    ensures ReplaceEmptyObjectsWithNull(JList(seq(n, _ => JNull))) == JList(seq(n, _ => JNull))
  {
    var xs := seq(n, _ => JNull);
    assert ReplaceEmptyObjectsWithNull(JList(xs)).items == xs;
  }

  /** The rewrite as its documentation describes it: a list whose items are all
      `None` (the empty list included) becomes `None` as well, like such a dict. */
  function ReplaceAsDocumented(data: Json): (r: Json)
    ensures !data.JDict? && !data.JList? ==> r == data
    ensures data.JDict? ==> (r == JNull <==> AllNone(data.entries))
    ensures data.JList? ==> (r == JNull <==> AllNoneItems(data.items))
    ensures data.JDict? && !AllNone(data.entries) ==>
              && r.JDict? && |r.entries| == |data.entries|
              && forall i :: 0 <= i < |data.entries| ==>
                   r.entries[i] == (data.entries[i].0, ReplaceAsDocumented(data.entries[i].1))
    ensures data.JList? && !AllNoneItems(data.items) ==>
              && r.JList? && |r.items| == |data.items|
              && forall i :: 0 <= i < |data.items| ==> r.items[i] == ReplaceAsDocumented(data.items[i])
  {
    match data
    case JDict(es) =>
      if AllNone(es) then JNull
      else JDict(seq(|es|, i requires 0 <= i < |es| => (es[i].0, ReplaceAsDocumented(es[i].1))))
    case JList(xs) =>
      if AllNoneItems(xs) then JNull
      else JList(seq(|xs|, i requires 0 <= i < |xs| => ReplaceAsDocumented(xs[i])))
    case _ => data
  }

  /** `all(item is None for item in xs)`; true of the empty list. */
  predicate AllNoneItems(xs: seq<Json>)
  {
    forall i :: 0 <= i < |xs| ==> xs[i] == JNull
  }

  /** As documented, a list of `None` values becomes `None`. */
  lemma AllNoneListReplaced(n: nat)
    ensures ReplaceAsDocumented(JList(seq(n, _ => JNull))) == JNull
  {
    var xs := seq(n, _ => JNull);
    assert AllNoneItems(xs);
  }

  /** No list anywhere inside `data` has only `None` items. */
  predicate NoAllNoneList(data: Json)
  {
    match data
    case JDict(es) => forall i :: 0 <= i < |es| ==> NoAllNoneList(es[i].1)
    case JList(xs) => !AllNoneItems(xs) && forall i :: 0 <= i < |xs| ==> NoAllNoneList(xs[i])
    case _ => true
  }

  /** The documented rewrite and the code differ only on lists of `None`: where no
      such list occurs, they agree. */
  lemma {:induction false} DocumentedAgreesWithoutNoneLists(data: Json)
    requires NoAllNoneList(data)
    ensures ReplaceAsDocumented(data) == ReplaceEmptyObjectsWithNull(data)
  {
    match data
    case JDict(es) =>
      if !AllNone(es) {
        forall i | 0 <= i < |es| ensures ReplaceAsDocumented(es[i].1) == ReplaceEmptyObjectsWithNull(es[i].1) {
          DocumentedAgreesWithoutNoneLists(es[i].1);
        }
        assert ReplaceAsDocumented(data).entries == ReplaceEmptyObjectsWithNull(data).entries;
      }
    case JList(xs) =>
      forall i | 0 <= i < |xs| ensures ReplaceAsDocumented(xs[i]) == ReplaceEmptyObjectsWithNull(xs[i]) {
        DocumentedAgreesWithoutNoneLists(xs[i]);
      }
      assert ReplaceAsDocumented(data).items == ReplaceEmptyObjectsWithNull(data).items;
    case _ =>
  }

  /** `{"a": {"b": None}}` becomes `{"a": None}`, which a second pass turns into `None`:
      the rewrite is not idempotent. */
  lemma NotIdempotent()
    ensures var d := JDict([("a", JDict([("b", JNull)]))]);
            && ReplaceEmptyObjectsWithNull(d) == JDict([("a", JNull)])
            && ReplaceEmptyObjectsWithNull(ReplaceEmptyObjectsWithNull(d)) == JNull
  {
    var inner := JDict([("b", JNull)]);
    var d := JDict([("a", inner)]);
    assert AllNone(inner.entries);
    assert !AllNone(d.entries) by { assert d.entries[0].1 != JNull; }
    assert ReplaceEmptyObjectsWithNull(d).entries == [("a", JNull)];
    assert AllNone([("a", JNull)]);
  }

  // ---------------------------------------------------------------------------
  // CCBaseModel.set_empty_dicts_to_none

  predicate IsEmptyDict(v: Json)
  {
    v.JDict? && |v.entries| == 0
  }

  /** One entry after the clean-up: an empty dict value becomes `None`. */
  function NullIfEmpty(e: (string, Json)): (r: (string, Json))
    ensures r.0 == e.0
    ensures IsEmptyDict(e.1) ==> r.1 == JNull
    ensures !IsEmptyDict(e.1) ==> r == e
  {
    if IsEmptyDict(e.1) then (e.0, JNull) else e
  }

  /** What `set_empty_dicts_to_none` leaves in a dict with entries `es`: the same
      keys in the same order; empty-dict values set to `None`; every other value,
      non-empty dicts included, untouched and not descended into. */
  function EmptyDictsToNone(es: seq<(string, Json)>): (r: seq<(string, Json)>)
    ensures Keys(r) == Keys(es)
    ensures forall i :: 0 <= i < |es| && IsEmptyDict(es[i].1) ==> r[i].1 == JNull
    ensures forall i :: 0 <= i < |es| && !IsEmptyDict(es[i].1) ==> r[i] == es[i]
    ensures forall i :: 0 <= i < |r| ==> !IsEmptyDict(r[i].1)
  {
    seq(|es|, i requires 0 <= i < |es| => NullIfEmpty(es[i]))
  }

  /** A second clean-up changes nothing. */
  lemma EmptyDictsToNoneIdempotent(es: seq<(string, Json)>)
    ensures EmptyDictsToNone(EmptyDictsToNone(es)) == EmptyDictsToNone(es)
  {
    var once := EmptyDictsToNone(es);
    assert |EmptyDictsToNone(once)| == |once|;
    forall i | 0 <= i < |once| ensures EmptyDictsToNone(once)[i] == once[i] {
      assert !IsEmptyDict(once[i].1);
    }
  }

  /** A dict that holds an empty dict one level down is not changed: nothing is
      done below the top level. */
  lemma NestedEmptyDictKept()
    ensures var es := [("a", JDict([("b", JDict([]))]))];
            EmptyDictsToNone(es) == es
  {
    var es := [("a", JDict([("b", JDict([]))]))];
    assert !IsEmptyDict(es[0].1);
  }

  /** The raw dictionary handed to a model validator; the validator edits it in place. */
  class RawDict {
    var entries: seq<(string, Json)>

    constructor (entries: seq<(string, Json)>)
      ensures this.entries == entries
    {
      this.entries := entries;
    }

    /** Overwrites each entry whose value is an empty dict with `None`, and returns
        the same dictionary object. */
    method SetEmptyDictsToNone() returns (r: RawDict)
      modifies this
      ensures r == this
      ensures entries == EmptyDictsToNone(old(entries))
    {
      var i := 0;
      while i < |entries|
        invariant 0 <= i <= |entries| == |old(entries)|
        invariant forall j :: 0 <= j < i ==> entries[j] == NullIfEmpty(old(entries)[j])
        invariant forall j :: i <= j < |entries| ==> entries[j] == old(entries)[j]
      {
        var (k, v) := entries[i];
        if v.JDict? && |v.entries| == 0 {
          entries := entries[i := (k, JNull)];
        }
        i := i + 1;
      }
      r := this;
    }
  }
}
