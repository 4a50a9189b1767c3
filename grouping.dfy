/**
 * Cameras and the grouping pass of `main`: the camera list is folded into an
 * insertion-ordered dict from a key (the camera's area, or its name in the
 * second script version, "Unknown" when the entry lacks it) to the cameras
 * with that key, in list order.  A Python dict keeps keys in insertion order;
 * here that order is the `keys` sequence beside a `map`.
 */
module Grouping {
  import opened Wrappers

  /** A camera entry; a missing dict key is `None`. */
  datatype Camera = Camera(name: Option<string>, area: Option<string>, url: Option<string>)

  /** Which field the cameras are grouped by. */
  datatype GroupKey = ByArea | ByName

  function KeyOf(c: Camera, field: GroupKey): string {
    match field
    case ByArea => c.area.GetOr("Unknown")
    case ByName => c.name.GetOr("Unknown")
  }

  /** The distinct keys of `cams` in order of first occurrence. */
  function Keys(cams: seq<Camera>, field: GroupKey): seq<string> {
    if cams == [] then []
    else
      var ks := Keys(cams[..|cams| - 1], field);
      var k := KeyOf(cams[|cams| - 1], field);
      if k in ks then ks else ks + [k]
  }

  /** The cameras of `cams` whose key is `k`, in list order. */
  function Members(cams: seq<Camera>, field: GroupKey, k: string): seq<Camera> {
    if cams == [] then []
    else
      Members(cams[..|cams| - 1], field, k)
        + (if KeyOf(cams[|cams| - 1], field) == k then [cams[|cams| - 1]] else [])
  }

  /** The groups of `ks`, one after another. */
  function Flatten(cams: seq<Camera>, field: GroupKey, ks: seq<string>): seq<Camera> {
    if ks == [] then [] else Flatten(cams, field, ks[..|ks| - 1]) + Members(cams, field, ks[|ks| - 1])
  }

  predicate Distinct(ks: seq<string>) {
    forall i, j :: 0 <= i < j < |ks| ==> ks[i] != ks[j]
  }

  /** Cameras sharing a key are adjacent in the list. */
  predicate Contiguous(cams: seq<Camera>, field: GroupKey) {
    forall i, j, l :: 0 <= i < j < l < |cams| && KeyOf(cams[i], field) == KeyOf(cams[l], field) ==>
      KeyOf(cams[j], field) == KeyOf(cams[i], field)
  }

  /**
   * The loop of `main`: create the group on the first camera with a new key,
   * then append the camera to its group.
   */
  method GroupCameras(cams: seq<Camera>, field: GroupKey) returns (keys: seq<string>, groups: map<string, seq<Camera>>)
    ensures keys == Keys(cams, field)
    ensures forall k :: k in groups <==> k in keys
    ensures forall k :: k in groups ==> groups[k] == Members(cams, field, k)
  {
    keys := [];
    groups := map[];
    var i := 0;
    while i < |cams|
      invariant 0 <= i <= |cams|
      invariant keys == Keys(cams[..i], field)
      invariant forall k :: k in groups <==> k in keys
      invariant forall k :: k in groups ==> groups[k] == Members(cams[..i], field, k)
    {
      GroupStep(cams, field, i);
      var key := KeyOf(cams[i], field);
      if key !in groups {
        MembersOfAbsentKey(cams[..i], field, key);
        keys := keys + [key];
        groups := groups[key := []];
      }
      groups := groups[key := groups[key] + [cams[i]]];
      i := i + 1;
    }
    assert cams[..i] == cams;
  }

  /** One more camera: its key is added if new, and it joins its own group only. */
  lemma GroupStep(cams: seq<Camera>, field: GroupKey, i: nat)
    requires i < |cams|
    ensures var ks, k := Keys(cams[..i], field), KeyOf(cams[i], field);
      Keys(cams[..i + 1], field) == if k in ks then ks else ks + [k]
    ensures forall k ::
      Members(cams[..i + 1], field, k) == Members(cams[..i], field, k) + (if KeyOf(cams[i], field) == k then [cams[i]] else [])
  {
    assert cams[..i + 1][..i] == cams[..i];
  }

  /** Every element of a group carries the group's key. */
  lemma {:induction false} MembersHaveKey(cams: seq<Camera>, field: GroupKey, k: string)
    ensures forall x :: x in Members(cams, field, k) ==> KeyOf(x, field) == k
  {
    if cams != [] {
      MembersHaveKey(cams[..|cams| - 1], field, k);
    }
  }

  /** A group holds every camera with its key, and no other. */
  lemma {:induction false} MembersExact(cams: seq<Camera>, field: GroupKey, k: string)
    ensures forall x :: x in Members(cams, field, k) <==> x in cams && KeyOf(x, field) == k
  {
    if cams != [] {
      var init := cams[..|cams| - 1];
      MembersExact(init, field, k);
      assert cams == init + [cams[|cams| - 1]];
    }
  }

  /** A key that does not occur has an empty group. */
  lemma {:induction false} MembersOfAbsentKey(cams: seq<Camera>, field: GroupKey, k: string)
    requires k !in Keys(cams, field)
    ensures Members(cams, field, k) == []
  {
    if cams != [] {
      var init := cams[..|cams| - 1];
      assert k !in Keys(init, field);
      MembersOfAbsentKey(init, field, k);
    }
  }

  /** The keys are exactly the keys that occur, each once. */
  lemma {:induction false} KeysExact(cams: seq<Camera>, field: GroupKey)
    ensures Distinct(Keys(cams, field))
    ensures forall k :: k in Keys(cams, field) <==> exists i :: 0 <= i < |cams| && KeyOf(cams[i], field) == k
  {
    if cams != [] {
      var init := cams[..|cams| - 1];
      KeysExact(init, field);
      forall k | k in Keys(cams, field) ensures exists i :: 0 <= i < |cams| && KeyOf(cams[i], field) == k {
        if k in Keys(init, field) {
          var i :| 0 <= i < |init| && KeyOf(init[i], field) == k;
          assert cams[i] == init[i];
        } else {
          assert KeyOf(cams[|cams| - 1], field) == k;
        }
      }
      forall k | exists i :: 0 <= i < |cams| && KeyOf(cams[i], field) == k ensures k in Keys(cams, field) {
        var i :| 0 <= i < |cams| && KeyOf(cams[i], field) == k;
        if i < |init| {
          assert init[i] == cams[i];
        }
      }
    }
  }

  /** Every element of a concatenation of groups carries one of their keys. */
  lemma {:induction false} FlattenKeys(cams: seq<Camera>, field: GroupKey, ks: seq<string>)
    ensures forall x :: x in Flatten(cams, field, ks) ==> KeyOf(x, field) in ks
  {
    if ks != [] {
      var init := ks[..|ks| - 1];
      FlattenKeys(cams, field, init);
      MembersHaveKey(cams, field, ks[|ks| - 1]);
      forall x | x in Flatten(cams, field, ks) ensures KeyOf(x, field) in ks {
        if x in Flatten(cams, field, init) {
          assert KeyOf(x, field) in init;
        }
      }
    }
  }

  /** A camera appended to the list joins its own group; the other groups are unchanged. */
  lemma MembersSnoc(init: seq<Camera>, c: Camera, field: GroupKey, k: string)
    ensures Members(init + [c], field, k) == Members(init, field, k) + (if KeyOf(c, field) == k then [c] else [])
  {
    assert (init + [c])[..|init|] == init;
  }

  /** Appending a camera whose key is not listed leaves the concatenation unchanged. */
  lemma {:induction false} FlattenSnocOther(init: seq<Camera>, c: Camera, field: GroupKey, ks: seq<string>)
    requires KeyOf(c, field) !in ks
    ensures Flatten(init + [c], field, ks) == Flatten(init, field, ks)
  {
    if ks != [] {
      FlattenSnocOther(init, c, field, ks[..|ks| - 1]);
      MembersSnoc(init, c, field, ks[|ks| - 1]);
    }
  }

  /** Appending a camera whose key is listed adds it to the concatenation once. */
  lemma {:induction false} FlattenSnocMultiset(init: seq<Camera>, c: Camera, field: GroupKey, ks: seq<string>)
    requires Distinct(ks) && KeyOf(c, field) in ks
    ensures multiset(Flatten(init + [c], field, ks)) == multiset(Flatten(init, field, ks)) + multiset{c}
    decreases |ks|, 1
  {
    if KeyOf(c, field) == ks[|ks| - 1] {
      FlattenSnocLast(init, c, field, ks);
    } else {
      FlattenSnocEarlier(init, c, field, ks);
    }
  }

  /** The same, for a camera whose group is not the last one listed. */
  lemma {:induction false} FlattenSnocEarlier(init: seq<Camera>, c: Camera, field: GroupKey, ks: seq<string>)
    requires ks != [] && Distinct(ks) && KeyOf(c, field) in ks[..|ks| - 1]
    ensures multiset(Flatten(init + [c], field, ks)) == multiset(Flatten(init, field, ks)) + multiset{c}
    decreases |ks|, 0
  {
    var cams := init + [c];
    var front, k := ks[..|ks| - 1], ks[|ks| - 1];
    assert Distinct(front);
    assert KeyOf(c, field) != k;
    MembersSnoc(init, c, field, k);
    FlattenSnocMultiset(init, c, field, front);
    var a, b, m := Flatten(cams, field, front), Flatten(init, field, front), Members(init, field, k);
    assert Flatten(cams, field, ks) == a + m;
    assert Flatten(init, field, ks) == b + m;
    assert multiset(a + m) == multiset(a) + multiset(m);
    assert multiset(b + m) == multiset(b) + multiset(m);
  }

  /** No camera is lost or duplicated: the groups together are a permutation of the list. */
  lemma {:induction false} GroupsArePermutation(cams: seq<Camera>, field: GroupKey)
    ensures multiset(Flatten(cams, field, Keys(cams, field))) == multiset(cams)
  {
    if cams != [] {
      var init, c := cams[..|cams| - 1], cams[|cams| - 1];
      assert cams == init + [c];
      GroupsArePermutation(init, field);
      KeysExact(init, field);
      var ks := Keys(init, field);
      if KeyOf(c, field) in ks {
        FlattenSnocMultiset(init, c, field, ks);
      } else {
        FlattenSnocNewKey(init, c, field);
      }
    }
  }

  /** So the group sizes add up to the number of cameras. */
  lemma GroupSizesAddUp(cams: seq<Camera>, field: GroupKey)
    ensures |Flatten(cams, field, Keys(cams, field))| == |cams|
  {
    GroupsArePermutation(cams, field);
    assert |multiset(Flatten(cams, field, Keys(cams, field)))| == |multiset(cams)|;
  }

  lemma ContiguousPrefix(cams: seq<Camera>, field: GroupKey)
    requires cams != [] && Contiguous(cams, field)
    ensures Contiguous(cams[..|cams| - 1], field)
  {
    var init := cams[..|cams| - 1];
    forall i, j, l | 0 <= i < j < l < |init| && KeyOf(init[i], field) == KeyOf(init[l], field)
      ensures KeyOf(init[j], field) == KeyOf(init[i], field)
    {
      assert init[i] == cams[i] && init[j] == cams[j] && init[l] == cams[l];
    }
  }

  /** In a contiguous list the last camera's key is the newest key. */
  lemma {:induction false} LastKeyOfContiguous(cams: seq<Camera>, field: GroupKey)
    requires cams != [] && Contiguous(cams, field)
    ensures var ks := Keys(cams, field); ks != [] && ks[|ks| - 1] == KeyOf(cams[|cams| - 1], field)
  {
    var init, c := cams[..|cams| - 1], cams[|cams| - 1];
    if init != [] && KeyOf(c, field) in Keys(init, field) {
      ContiguousPrefix(cams, field);
      LastKeyOfContiguous(init, field);
      KeysExact(init, field);
      var i :| 0 <= i < |init| && KeyOf(init[i], field) == KeyOf(c, field);
      if i < |init| - 1 {
        assert KeyOf(cams[|init| - 1], field) == KeyOf(cams[i], field);
      }
    }
  }

  /** A camera joining the newest group extends the concatenation at its end. */
  lemma FlattenSnocLast(init: seq<Camera>, c: Camera, field: GroupKey, ks: seq<string>)
    requires ks != [] && Distinct(ks) && ks[|ks| - 1] == KeyOf(c, field)
    ensures Flatten(init + [c], field, ks) == Flatten(init, field, ks) + [c]
  {
    var front := ks[..|ks| - 1];
    assert KeyOf(c, field) !in front;
    FlattenSnocOther(init, c, field, front);
    MembersSnoc(init, c, field, ks[|ks| - 1]);
  }

  /** A contiguous list is given back by concatenating its groups. */
  lemma {:induction false} ContiguousFlattensToSelf(cams: seq<Camera>, field: GroupKey)
    requires Contiguous(cams, field)
    ensures Flatten(cams, field, Keys(cams, field)) == cams
  {
    if cams != [] {
      var init, c := cams[..|cams| - 1], cams[|cams| - 1];
      assert cams == init + [c];
      ContiguousPrefix(cams, field);
      ContiguousFlattensToSelf(init, field);
      if KeyOf(c, field) in Keys(init, field) {
        FlattenSnocKnownKey(init, c, field);
      } else {
        FlattenSnocNewKey(init, c, field);
      }
    }
  }

  /** A camera with a new key opens the last group, so it lands at the end of the concatenation. */
  lemma FlattenSnocNewKey(init: seq<Camera>, c: Camera, field: GroupKey)
    requires KeyOf(c, field) !in Keys(init, field)
    ensures Keys(init + [c], field) == Keys(init, field) + [KeyOf(c, field)]
    ensures Flatten(init + [c], field, Keys(init + [c], field)) == Flatten(init, field, Keys(init, field)) + [c]
  {
    var ks, k := Keys(init, field), KeyOf(c, field);
    assert (init + [c])[..|init|] == init;
    assert (ks + [k])[..|ks|] == ks;
    FlattenSnocOther(init, c, field, ks);
    MembersSnoc(init, c, field, k);
    MembersOfAbsentKey(init, field, k);
  }

  /** In a contiguous list, a camera with a known key joins the last group, at the end of the concatenation. */
  lemma FlattenSnocKnownKey(init: seq<Camera>, c: Camera, field: GroupKey)
    requires Contiguous(init + [c], field) && KeyOf(c, field) in Keys(init, field)
    ensures Flatten(init + [c], field, Keys(init + [c], field)) == Flatten(init, field, Keys(init, field)) + [c]
  {
    var cams := init + [c];
    assert cams[..|init|] == init;
    assert Keys(cams, field) == Keys(init, field);
    KeysExact(init, field);
    LastKeyOfContiguous(cams, field);
    FlattenSnocLast(init, c, field, Keys(init, field));
  }

  /** A block of one key after a contiguous list without that key stays contiguous. */
  lemma AppendBlockContiguous(a: seq<Camera>, b: seq<Camera>, field: GroupKey, k: string)
    requires Contiguous(a, field)
    requires forall x :: x in b ==> KeyOf(x, field) == k
    requires forall x :: x in a ==> KeyOf(x, field) != k
    ensures Contiguous(a + b, field)
  {
    var s := a + b;
    assert forall n :: 0 <= n < |a| ==> s[n] == a[n] && a[n] in a;
    assert forall n :: |a| <= n < |s| ==> s[n] == b[n - |a|] && b[n - |a|] in b;
    forall i, j, l | 0 <= i < j < l < |s| && KeyOf(s[i], field) == KeyOf(s[l], field)
      ensures KeyOf(s[j], field) == KeyOf(s[i], field)
    {
      if l < |a| {
        assert s[i] == a[i] && s[j] == a[j] && s[l] == a[l];
      }
    }
  }

  /** A concatenation of groups under distinct keys is contiguous. */
  lemma {:induction false} FlattenContiguous(cams: seq<Camera>, field: GroupKey, ks: seq<string>)
    requires Distinct(ks)
    ensures Contiguous(Flatten(cams, field, ks), field)
  {
    if ks != [] {
      var front, k := ks[..|ks| - 1], ks[|ks| - 1];
      assert Distinct(front);
      FlattenContiguous(cams, field, front);
      FlattenKeys(cams, field, front);
      MembersHaveKey(cams, field, k);
      AppendBlockContiguous(Flatten(cams, field, front), Members(cams, field, k), field, k);
    }
  }

  /**
   * Listing the groups in their dict order gives back the camera list exactly
   * when the cameras of each key are adjacent in it.
   */
  lemma FlattenIsIdentityIffContiguous(cams: seq<Camera>, field: GroupKey)
    ensures Flatten(cams, field, Keys(cams, field)) == cams <==> Contiguous(cams, field)
  {
    if Contiguous(cams, field) {
      ContiguousFlattensToSelf(cams, field);
    }
    KeysExact(cams, field);
    FlattenContiguous(cams, field, Keys(cams, field));
  }
}
