/** The body template of a tool: a tree of objects, lists, strings and other values, whose string leaves are filled. */
module BodyTemplate {
  import opened Prelude
  import opened Substitution

  datatype Field = Field(key: string, value: Json)

  /** `Other` is a number, a boolean or null. */
  datatype Json = Str(text: string) | Obj(fields: seq<Field>) | Arr(items: seq<Json>) | Other(id: int)

  /** What is stored back in a slot that held `v`. */
  function Slot(v: Json, ps: seq<Param>): Json
    decreases v, 1
  {
    if v.Str? then Str(Sequential(v.text, ps)) else Filled(v, ps)
  }

  /** The tree after the call; a lone string or other value is left as it is. */
  function Filled(obj: Json, ps: seq<Param>): Json
    decreases obj, 0
  {
    match obj
    case Obj(fields) =>
      Obj(seq(|fields|, i requires 0 <= i < |fields| => Field(fields[i].key, Slot(fields[i].value, ps))))
    case Arr(items) => Arr(seq(|items|, i requires 0 <= i < |items| => Slot(items[i], ps)))
    case _ => obj
  }

  // ---------- Places in a tree ----------

  /** A place is reached by positions, from the root down. */
  type Place = seq<nat>

  function Child(j: Json, i: nat): Option<Json> {
    match j
    case Obj(fields) => if i < |fields| then Some(fields[i].value) else None
    case Arr(items) => if i < |items| then Some(items[i]) else None
    case _ => None
  }

  function At(j: Json, place: Place): Option<Json> {
    if place == [] then Some(j)
    else match Child(j, place[0]) case None => None case Some(c) => At(c, place[1..])
  }

  function Keys(fields: seq<Field>): (r: seq<string>)
    ensures |r| == |fields|
  {
    seq(|fields|, i requires 0 <= i < |fields| => fields[i].key)
  }

  /** `b` is what filling makes of `a`: a string is replaced parameter by parameter, an object keeps its keys in their
      order, a list its length, and any other value stays. */
  predicate FilledFrom(a: Json, b: Json, ps: seq<Param>) {
    match a
    case Str(text) => b == Str(Sequential(text, ps))
    case Obj(fields) => b.Obj? && Keys(b.fields) == Keys(fields)
    case Arr(items) => b.Arr? && |b.items| == |items|
    case Other(_) => b == a
  }

  ghost predicate SamePlace(a: Json, b: Json, ps: seq<Param>, place: Place) {
    && (At(b, place).Some? <==> At(a, place).Some?)
    && (At(a, place).Some? ==> FilledFrom(At(a, place).value, At(b, place).value, ps))
  }

  /** `b` has the places of `a`, each with what filling makes of the content there. */
  ghost predicate FilledEverywhere(a: Json, b: Json, ps: seq<Param>) {
    forall place :: SamePlace(a, b, ps, place)
  }

  lemma {:induction false} SlotAt(v: Json, ps: seq<Param>, place: Place)
    ensures SamePlace(v, Slot(v, ps), ps, place)
    decreases place
  {
    if place != [] {
      match Child(v, place[0])
      case None =>
      case Some(c) => SlotAt(c, ps, place[1..]);
    }
  }

  lemma ChildrenFilled(a: Json, b: Json, ps: seq<Param>, i: nat)
    requires FilledEverywhere(a, b, ps) && Child(a, i).Some?
    ensures Child(b, i).Some? && FilledEverywhere(Child(a, i).value, Child(b, i).value, ps)
  {
    assert SamePlace(a, b, ps, []);
    forall place ensures SamePlace(Child(a, i).value, Child(b, i).value, ps, place) {
      assert SamePlace(a, b, ps, [i] + place);
      assert ([i] + place)[1..] == place;
    }
  }

  lemma {:induction false} FilledIsSlot(a: Json, b: Json, ps: seq<Param>)
    requires FilledEverywhere(a, b, ps)
    ensures b == Slot(a, ps)
    decreases a
  {
    assert SamePlace(a, b, ps, []);
    match a
    case Obj(fields) =>
      forall i | 0 <= i < |fields| ensures b.fields[i] == Field(fields[i].key, Slot(fields[i].value, ps)) {
        ChildrenFilled(a, b, ps, i);
        FilledIsSlot(fields[i].value, b.fields[i].value, ps);
        assert b.fields[i].key == Keys(b.fields)[i] == Keys(fields)[i];
      }
      assert Slot(a, ps) == Filled(a, ps);
      assert b.fields == Filled(a, ps).fields;
    case Arr(items) =>
      forall i | 0 <= i < |items| ensures b.items[i] == Slot(items[i], ps) {
        ChildrenFilled(a, b, ps, i);
        FilledIsSlot(items[i], b.items[i], ps);
      }
      assert Slot(a, ps) == Filled(a, ps);
      assert b.items == Filled(a, ps).items;
    case _ =>
  }

  /** Filling a body template adds and removes no place, keeps keys, key order, list lengths and all other values, and
      replaces every string leaf; and it is the only tree that does. */
  lemma OnlyLeavesChange(obj: Json, ps: seq<Param>, other: Json)
    requires !obj.Str?
    ensures FilledEverywhere(obj, other, ps) <==> other == Filled(obj, ps)
  {
    if FilledEverywhere(obj, other, ps) { FilledIsSlot(obj, other, ps); }
    forall place ensures SamePlace(obj, Filled(obj, ps), ps, place) { SlotAt(obj, ps, place); }
  }

  // ---------- The loops over keys and items ----------

  method SubstituteSlot(v: Json, params: seq<Param>) returns (r: Json)
    ensures r == Slot(v, params)
    decreases v, 1
  {
    if v.Str? {
      var text := Substitute(v.text, params);
      r := Str(text);
    } else {
      r := SubstituteParams(v, params);
    }
  }

  method SubstituteParams(obj: Json, params: seq<Param>) returns (r: Json)
    ensures r == Filled(obj, params)
    decreases obj, 0
  {
    r := obj;
    if obj.Obj? {
      var fields := obj.fields;
      for i := 0 to |obj.fields|
        invariant |fields| == |obj.fields| && fields[i..] == obj.fields[i..]
        invariant forall k | 0 <= k < i :: fields[k] == Field(obj.fields[k].key, Slot(obj.fields[k].value, params))
      {
        assert fields[i] == fields[i..][0] == obj.fields[i];
        var v := SubstituteSlot(obj.fields[i].value, params);
        fields := fields[i := Field(obj.fields[i].key, v)];
      }
      r := Obj(fields);
      assert fields == Filled(obj, params).fields;
    } else if obj.Arr? {
      var items := obj.items;
      for i := 0 to |obj.items|
        invariant |items| == |obj.items| && items[i..] == obj.items[i..]
        invariant forall k | 0 <= k < i :: items[k] == Slot(obj.items[k], params)
      {
        assert items[i] == items[i..][0] == obj.items[i];
        var v := SubstituteSlot(obj.items[i], params);
        items := items[i := v];
      }
      r := Arr(items);
      assert items == Filled(obj, params).items;
    }
  }
}
