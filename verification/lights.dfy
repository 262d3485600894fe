/**
 * The light records returned by the light service, and the few org.json
 * queries the controller makes on them, written as Dafny datatypes.
 */
module Lights {
  import opened Results

  /** The value stored under "name" inside a light's group object. */
  datatype NameField =
    | NameAbsent             // the group object has no "name" key
    | NameNull               // "name": null
    | NameString(s: string)  // "name": "<s>", possibly empty
    | NameOther              // "name" holds a non-null value that is not a string

  /** The value stored under "groupByGroup" in a light record. */
  datatype GroupField =
    | GroupAbsent                   // no "groupByGroup" key
    | GroupNull                     // "groupByGroup": null
    | GroupNotObject                // a string, number, boolean or array
    | GroupObject(name: NameField)  // a JSON object

  /** One light record: `{ "id", "color", "on", "groupByGroup" }`. */
  datatype Light = Light(id: int, color: string, on: bool, group: GroupField)

  /**
   * A response of the light service. `lights` is None when the body has no
   * "lights" array, in which case `getJSONArray("lights")` throws.
   */
  datatype Response = Response(lights: Option<seq<Light>>)

  /** `optJSONObject`: the group object, or nothing when the value is missing, null or not an object. */
  function OptGroupObject(g: GroupField): Option<NameField>
  {
    match g
    case GroupObject(name) => Some(name)
    case _ => None
  }

  /** `has("name")`: the key is present, even when it maps to null. */
  predicate HasName(n: NameField)
  {
    !n.NameAbsent?
  }

  /** `isNull("name")`: the key is missing or maps to JSON null. */
  predicate IsNullName(n: NameField)
  {
    n.NameAbsent? || n.NameNull?
  }

  /** The test `getGroupLeds` applies to each light. */
  predicate InGroup(l: Light)
  {
    var group := OptGroupObject(l.group);
    group.Some? && HasName(group.value) && !IsNullName(group.value)
  }

  /**
   * The membership test case by case: only a group object whose name is
   * present and non-null admits the light, and an empty-string name does.
   */
  lemma InGroupCases(l: Light)
    ensures l.group.GroupAbsent? ==> !InGroup(l)
    ensures l.group.GroupNull? ==> !InGroup(l)
    ensures l.group.GroupNotObject? ==> !InGroup(l)
    ensures l.group == GroupObject(NameAbsent) ==> !InGroup(l)
    ensures l.group == GroupObject(NameNull) ==> !InGroup(l)
    ensures l.group == GroupObject(NameString("")) ==> InGroup(l)
    ensures InGroup(l) <==> l.group.GroupObject? && (l.group.name.NameString? || l.group.name.NameOther?)
  {
  }

  /** `a` is `b` with some elements dropped, the rest kept in order. */
  predicate IsSubsequence<T(==)>(a: seq<T>, b: seq<T>)
    decreases |b|
  {
    |a| <= |b| &&
    (a == [] || (a[0] == b[0] && IsSubsequence(a[1..], b[1..])) || IsSubsequence(a, b[1..]))
  }

  /**
   * The loop of `getGroupLeds`: the lights that pass `InGroup`, in their
   * original order, each as often as it occurs in the input.
   */
  function FilterGroup(lights: seq<Light>): (r: seq<Light>)
    ensures forall i :: 0 <= i < |r| ==> InGroup(r[i])
    ensures forall l :: multiset(r)[l] == if InGroup(l) then multiset(lights)[l] else 0
    ensures IsSubsequence(r, lights)
  {
    if lights == [] then []
    else
      var head, tail := lights[0], lights[1..];
      var rest := FilterGroup(tail);
      assert lights == [head] + tail;
      assert multiset(lights) == multiset{head} + multiset(tail);
      if InGroup(head) then
        var r := [head] + rest;
        assert r[0] == head && r[1..] == rest;
        assert multiset(r) == multiset{head} + multiset(rest);
        r
      else rest
  }

  /** Filtering distributes over concatenation: relative order is kept across any split. */
  lemma {:induction false} FilterGroupAppend(a: seq<Light>, b: seq<Light>)
    ensures FilterGroup(a + b) == FilterGroup(a) + FilterGroup(b)
  {
    if a == [] {
      assert a + b == b;
    } else {
      assert (a + b)[1..] == a[1..] + b;
      FilterGroupAppend(a[1..], b);
    }
  }

  /** When every light is grouped, nothing is filtered out. */
  lemma {:induction false} FilterGroupAllGrouped(lights: seq<Light>)
    requires forall i :: 0 <= i < |lights| ==> InGroup(lights[i])
    ensures FilterGroup(lights) == lights
  {
    if lights != [] {
      FilterGroupAllGrouped(lights[1..]);
      assert lights == [lights[0]] + lights[1..];
    }
  }

  lemma FilterGroupSingle(l: Light)
    ensures FilterGroup([l]) == if InGroup(l) then [l] else []
  {
    assert [l][1..] == [];
  }

  lemma FilterGroupPair(kept: Light, dropped: Light)
    requires InGroup(kept) && !InGroup(dropped)
    ensures FilterGroup([kept, dropped]) == [kept]
  {
    FilterGroupSingle(kept);
    FilterGroupSingle(dropped);
    assert [kept, dropped] == [kept] + [dropped];
    FilterGroupAppend([kept], [dropped]);
  }

  /** Of two grouped and two ungrouped lights, alternating, only the grouped two remain, in order. */
  lemma FilterGroupAlternating(a: Light, x: Light, b: Light, y: Light)
    requires InGroup(a) && InGroup(b) && !InGroup(x) && !InGroup(y)
    ensures FilterGroup([a, x, b, y]) == [a, b]
  {
    FilterGroupPair(a, x);
    FilterGroupPair(b, y);
    assert [a, x, b, y] == [a, x] + [b, y];
    FilterGroupAppend([a, x], [b, y]);
  }

  /** The mixed list of the group-filter test: lights without a group or with a null group drop out. */
  lemma FilterGroupExample(a: Light, ungrouped: Light, b: Light, nullGroup: Light)
    requires a.group == GroupObject(NameString("A")) && b.group == GroupObject(NameString("B"))
    requires ungrouped.group == GroupAbsent && nullGroup.group == GroupNull
    ensures FilterGroup([a, ungrouped, b, nullGroup]) == [a, b]
  {
    assert InGroup(a) && InGroup(b) && !InGroup(ungrouped) && !InGroup(nullGroup);
    FilterGroupAlternating(a, ungrouped, b, nullGroup);
  }
}
