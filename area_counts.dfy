/**
 * The real-time area counter: the latest counts reported per department are
 * kept in a table (each report replaces the previous one) and folded into
 * per-area sums through the department directory.  Departments without a
 * directory area are reported under a placeholder built from their id.
 */
module AreaCounts {
  import opened Wrappers
  import opened Departments
  import Grouping

  /** The three counters of a report. */
  datatype Counts = Counts(prisoner: int, officer: int, relative: int)

  const Zero: Counts := Counts(0, 0, 0)

  function Plus(a: Counts, b: Counts): Counts {
    Counts(a.prisoner + b.prisoner, a.officer + b.officer, a.relative + b.relative)
  }

  function Minus(a: Counts, b: Counts): Counts {
    Counts(a.prisoner - b.prisoner, a.officer - b.officer, a.relative - b.relative)
  }

  /** A decoded JSON value as a socket payload carries it (arrays and floats are not modelled). */
  datatype Json = JNull | JBool(b: bool) | JInt(i: int) | JStr(s: string) | JObject(fields: map<string, Json>)

  /** Python truthiness of a decoded value. */
  predicate Truthy(j: Json) {
    match j
    case JNull => false
    case JBool(b) => b
    case JInt(i) => i != 0
    case JStr(s) => s != ""
    case JObject(f) => f != map[]
  }

  /** `d.get(key, 0)` read as a number; Python's `bool` counts as 0 or 1. */
  function Counter(fields: map<string, Json>, key: string): (n: int)
    ensures key in fields && fields[key].JInt? ==> n == fields[key].i
    ensures key in fields && fields[key].JBool? ==> n == (if fields[key].b then 1 else 0)
    ensures key !in fields || !(fields[key].JInt? || fields[key].JBool?) ==> n == 0
  {
    if key !in fields then 0
    else match fields[key]
      case JInt(i) => i
      case JBool(b) => if b then 1 else 0
      case _ => 0
  }

  /** The entry `update_counts` stores for a `data_count` dict. */
  function CountsOf(fields: map<string, Json>): (c: Counts)
    ensures "prisoner" !in fields ==> c.prisoner == 0
    ensures "officer" !in fields ==> c.officer == 0
    ensures "relative" !in fields ==> c.relative == 0
    ensures "prisoner" in fields && fields["prisoner"].JInt? ==> c.prisoner == fields["prisoner"].i
    ensures "officer" in fields && fields["officer"].JInt? ==> c.officer == fields["officer"].i
    ensures "relative" in fields && fields["relative"].JInt? ==> c.relative == fields["relative"].i
  {
    Counts(Counter(fields, "prisoner"), Counter(fields, "officer"), Counter(fields, "relative"))
  }

  /** `id[:8]`. */
  function Prefix8(id: string): (p: string)
    ensures |p| <= 8 && |p| <= |id| && p == id[..|p|]
    ensures |id| >= 8 ==> |p| == 8
  {
    if |id| <= 8 then id else id[..8]
  }

  /** The placeholder area of a department the directory gives no area. */
  function UnknownArea(id: string): string {
    "UNKNOWN_AREA (" + Prefix8(id) + "...)"
  }

  /** The area a department's counts are added to. */
  function ResolveArea(id: string): (a: string)
    ensures a != ""
    ensures DepartmentArea(id) != "" ==> a == DepartmentArea(id)
    ensures DepartmentArea(id) == "" ==> a == UnknownArea(id)
  {
    var info := DepartmentInfo(id);
    var area := if info.Some? then info.value.area else "";
    if area == "" then UnknownArea(id) else area
  }

  /**
   * Unmapped departments sharing the first eight characters of their id are
   * merged into one placeholder area, and different prefixes stay apart.
   */
  lemma UnknownAreaByPrefix(id1: string, id2: string)
    requires id1 !in Directory && id2 !in Directory
    ensures ResolveArea(id1) == ResolveArea(id2) <==> Prefix8(id1) == Prefix8(id2)
  {
    var p1, p2 := Prefix8(id1), Prefix8(id2);
    var a1, a2 := UnknownArea(id1), UnknownArea(id2);
    if a1 == a2 {
      var pre := "UNKNOWN_AREA (";
      var suf := "...)";
      assert a1 == pre + p1 + suf && a2 == pre + p2 + suf;
      assert |p1| == |p2|;
      assert p1 == a1[|pre|..|pre| + |p1|];
      assert p2 == a2[|pre|..|pre| + |p2|];
    }
  }

  /** A placeholder never coincides with an area of the directory. */
  lemma UnknownAreaIsNoDirectoryArea(id: string, other: string)
    requires other in Directory
    ensures UnknownArea(id) != Directory[other].area
  {
    assert UnknownArea(id)[0] == 'U';
    assert Directory[other].area[0] == 'K';
  }

  /** Every listed department has counts. */
  predicate AllReported(ids: seq<string>, counts: map<string, Counts>) {
    forall i :: 0 <= i < |ids| ==> ids[i] in counts
  }

  /**
   * Per-area totals over the departments `ids`, each department's counts
   * added to the area `area` gives it: the `defaultdict` the aggregation fills.
   */
  function Totals(ids: seq<string>, counts: map<string, Counts>, area: string -> string): map<string, Counts>
    requires AllReported(ids, counts)
  {
    if ids == [] then map[]
    else
      var m := Totals(ids[..|ids| - 1], counts, area);
      var id := ids[|ids| - 1];
      var a := area(id);
      m[a := Plus(if a in m then m[a] else Zero, counts[id])]
  }

  /** The areas in the order the aggregation first meets them. */
  function AreaOrder(ids: seq<string>, area: string -> string): seq<string> {
    if ids == [] then []
    else
      var o := AreaOrder(ids[..|ids| - 1], area);
      var a := area(ids[|ids| - 1]);
      if a in o then o else o + [a]
  }

  /** The sum of the counts of the departments `ids`. */
  function GrandTotal(ids: seq<string>, counts: map<string, Counts>): Counts
    requires AllReported(ids, counts)
  {
    if ids == [] then Zero else Plus(GrandTotal(ids[..|ids| - 1], counts), counts[ids[|ids| - 1]])
  }

  /** The sum of the counts of those departments of `ids` whose area is `a`. */
  function AreaSum(ids: seq<string>, counts: map<string, Counts>, area: string -> string, a: string): Counts
    requires AllReported(ids, counts)
  {
    if ids == [] then Zero
    else
      Plus(AreaSum(ids[..|ids| - 1], counts, area, a),
        if area(ids[|ids| - 1]) == a then counts[ids[|ids| - 1]] else Zero)
  }

  /** The sum of `m` over the keys `keys`, in that order. */
  function SumOver(keys: seq<string>, m: map<string, Counts>): Counts
    requires AllReported(keys, m)
  {
    if keys == [] then Zero else Plus(SumOver(keys[..|keys| - 1], m), m[keys[|keys| - 1]])
  }

  /** The running sum over a prefix grows by the next key's counts. */
  lemma SumOverStep(keys: seq<string>, m: map<string, Counts>, i: nat)
    requires i < |keys| && AllReported(keys, m)
    ensures AllReported(keys[..i], m) && AllReported(keys[..i + 1], m)
    ensures SumOver(keys[..i + 1], m) == Plus(SumOver(keys[..i], m), m[keys[i]])
  {
    assert keys[..i + 1][..i] == keys[..i];
  }

  /** `s` without its element at `i`. */
  function Without(s: seq<string>, i: nat): (r: seq<string>)
    requires i < |s|
    ensures |r| == |s| - 1
    ensures forall k :: 0 <= k < |r| ==> r[k] == (if k < i then s[k] else s[k + 1])
  {
    s[..i] + s[i + 1..]
  }

  /** The aggregation lists each area once, and has a total for exactly the areas it lists. */
  lemma {:induction false} TotalsKeys(ids: seq<string>, counts: map<string, Counts>, area: string -> string)
    requires AllReported(ids, counts)
    ensures Grouping.Distinct(AreaOrder(ids, area))
    ensures forall a :: a in Totals(ids, counts, area) <==> a in AreaOrder(ids, area)
  {
    if ids != [] {
      var init := ids[..|ids| - 1];
      assert AllReported(init, counts);
      TotalsKeys(init, counts, area);
    }
  }

  /** One more department extends the first-seen order and bumps its area's total. */
  lemma AggregateStep(ids: seq<string>, counts: map<string, Counts>, area: string -> string, i: nat)
    requires i < |ids| && AllReported(ids, counts)
    ensures AllReported(ids[..i], counts) && AllReported(ids[..i + 1], counts)
    ensures var o, a := AreaOrder(ids[..i], area), area(ids[i]);
      AreaOrder(ids[..i + 1], area) == if a in o then o else o + [a]
    ensures var m, a := Totals(ids[..i], counts, area), area(ids[i]);
      Totals(ids[..i + 1], counts, area) == m[a := Plus(if a in m then m[a] else Zero, counts[ids[i]])]
  {
    assert ids[..i + 1][..i] == ids[..i];
  }

  /** The aggregation's areas are exactly the areas of the listed departments. */
  lemma {:induction false} AreaOrderExactly(ids: seq<string>, area: string -> string)
    ensures forall a :: a in AreaOrder(ids, area) <==> exists i :: 0 <= i < |ids| && area(ids[i]) == a
  {
    if ids != [] {
      var init := ids[..|ids| - 1];
      AreaOrderExactly(init, area);
      forall a | a in AreaOrder(ids, area) ensures exists i :: 0 <= i < |ids| && area(ids[i]) == a {
        if a in AreaOrder(init, area) {
          var i :| 0 <= i < |init| && area(init[i]) == a;
          assert ids[i] == init[i];
        } else {
          assert area(ids[|ids| - 1]) == a;
        }
      }
      forall a | exists i :: 0 <= i < |ids| && area(ids[i]) == a ensures a in AreaOrder(ids, area) {
        var i :| 0 <= i < |ids| && area(ids[i]) == a;
        if i < |init| {
          assert init[i] == ids[i];
        }
      }
    }
  }

  /** Each area's total is the sum over the departments in that area. */
  lemma {:induction false} TotalsAreAreaSums(ids: seq<string>, counts: map<string, Counts>, area: string -> string)
    requires AllReported(ids, counts)
    ensures forall a :: a in Totals(ids, counts, area) ==> Totals(ids, counts, area)[a] == AreaSum(ids, counts, area, a)
  {
    if ids != [] {
      var init, id := ids[..|ids| - 1], ids[|ids| - 1];
      assert AllReported(init, counts);
      TotalsAreAreaSums(init, counts, area);
      var m := Totals(init, counts, area);
      forall a | a in Totals(ids, counts, area)
        ensures Totals(ids, counts, area)[a] == AreaSum(ids, counts, area, a)
      {
        if a != area(id) {
          assert a in m;
        } else if a !in m {
          TotalsKeys(init, counts, area);
          ZeroAreaSum(init, counts, area, a);
        }
      }
    }
  }

  /** An area the aggregation never meets sums to zero. */
  lemma {:induction false} ZeroAreaSum(ids: seq<string>, counts: map<string, Counts>, area: string -> string, a: string)
    requires AllReported(ids, counts)
    requires a !in AreaOrder(ids, area)
    ensures AreaSum(ids, counts, area, a) == Zero
  {
    if ids != [] {
      var init := ids[..|ids| - 1];
      assert AllReported(init, counts);
      ZeroAreaSum(init, counts, area, a);
      var last := ids[|ids| - 1];
      assert area(last) != a;
    }
  }

  /** Changing `m` at a key outside `keys` leaves the sum unchanged. */
  lemma {:induction false} SumOverIgnoresOtherKey(keys: seq<string>, m: map<string, Counts>, a: string, c: Counts)
    requires AllReported(keys, m)
    requires a !in keys
    ensures AllReported(keys, m[a := c])
    ensures SumOver(keys, m[a := c]) == SumOver(keys, m)
  {
    if keys != [] {
      var init := keys[..|keys| - 1];
      assert AllReported(init, m);
      SumOverIgnoresOtherKey(init, m, a, c);
    }
  }

  /** Adding `c` at one key listed once adds `c` to the sum. */
  lemma {:induction false} SumOverBump(keys: seq<string>, m: map<string, Counts>, a: string, c: Counts)
    requires AllReported(keys, m)
    requires Grouping.Distinct(keys) && a in keys
    ensures AllReported(keys, m[a := Plus(m[a], c)])
    ensures SumOver(keys, m[a := Plus(m[a], c)]) == Plus(SumOver(keys, m), c)
  {
    var init, last := keys[..|keys| - 1], keys[|keys| - 1];
    assert AllReported(init, m);
    assert Grouping.Distinct(init);
    if last == a {
      assert a !in init;
      SumOverIgnoresOtherKey(init, m, a, Plus(m[a], c));
    } else {
      assert a in init;
      SumOverBump(init, m, a, c);
    }
  }

  /**
   * Conservation: the sum of the area totals, taken in the aggregation's
   * order, equals the sum over all departments.
   */
  lemma {:induction false} AreaTotalsConserveCounts(ids: seq<string>, counts: map<string, Counts>, area: string -> string)
    requires AllReported(ids, counts)
    ensures AllReported(AreaOrder(ids, area), Totals(ids, counts, area))
    ensures SumOver(AreaOrder(ids, area), Totals(ids, counts, area)) == GrandTotal(ids, counts)
  {
    if ids != [] {
      var init, id := ids[..|ids| - 1], ids[|ids| - 1];
      assert AllReported(init, counts);
      AreaTotalsConserveCounts(init, counts, area);
      TotalsKeys(init, counts, area);
      var o, m, a, c := AreaOrder(init, area), Totals(init, counts, area), area(id), counts[id];
      if a in o {
        assert AreaOrder(ids, area) == o;
        assert Totals(ids, counts, area) == m[a := Plus(m[a], c)];
        SumOverBump(o, m, a, c);
      } else {
        var m' := m[a := Plus(Zero, c)];
        assert AreaOrder(ids, area) == o + [a];
        assert Totals(ids, counts, area) == m';
        SumOverIgnoresOtherKey(o, m, a, Plus(Zero, c));
        assert (o + [a])[..|o|] == o;
        assert AllReported(o + [a], m');
        assert SumOver(o + [a], m') == Plus(SumOver(o, m'), m'[a]);
      }
    }
  }

  /** Summation with one key taken out of the middle. */
  lemma {:induction false} SumOverRemove(keys: seq<string>, m: map<string, Counts>, i: nat)
    requires AllReported(keys, m)
    requires i < |keys|
    ensures AllReported(Without(keys, i), m)
    ensures SumOver(keys, m) == Plus(SumOver(Without(keys, i), m), m[keys[i]])
  {
    var rest := Without(keys, i);
    assert AllReported(rest, m);
    var init := keys[..|keys| - 1];
    assert AllReported(init, m);
    if i == |keys| - 1 {
      assert rest == init;
    } else {
      SumOverRemove(init, m, i);
      assert rest == Without(init, i) + [keys[|keys| - 1]];
      assert rest[..|rest| - 1] == Without(init, i);
    }
  }

  /** Taking out the element at `i` takes one copy of it out of the multiset. */
  lemma MultisetWithout(q: seq<string>, i: nat)
    requires i < |q|
    ensures multiset(Without(q, i)) == multiset(q) - multiset{q[i]}
  {
    assert q == q[..i] + [q[i]] + q[i + 1..];
    assert Without(q, i) == q[..i] + q[i + 1..];
  }

  /** The sum does not depend on the order the keys are visited in (the display sorts the areas). */
  lemma {:induction false} SumOverPermutation(p: seq<string>, q: seq<string>, m: map<string, Counts>)
    requires AllReported(p, m)
    requires multiset(p) == multiset(q)
    ensures AllReported(q, m)
    ensures SumOver(p, m) == SumOver(q, m)
  {
    forall k | 0 <= k < |q| ensures q[k] in m {
      assert q[k] in multiset(p);
    }
    if p != [] {
      var init, x := p[..|p| - 1], p[|p| - 1];
      assert x in multiset(q) by {
        assert x in multiset(p);
      }
      var i :| 0 <= i < |q| && q[i] == x;
      var q' := Without(q, i);
      SumOverRemove(q, m, i);
      MultisetWithout(q, i);
      assert multiset(init) == multiset(q') by {
        MultisetWithout(p, |p| - 1);
        assert Without(p, |p| - 1) == init;
      }
      assert AllReported(init, m);
      SumOverPermutation(init, q', m);
      assert SumOver(p, m) == Plus(SumOver(init, m), m[x]);
    }
  }

  /** The aggregation is empty exactly when no department has reported. */
  lemma EmptyAggregation(ids: seq<string>, counts: map<string, Counts>, area: string -> string)
    requires AllReported(ids, counts)
    ensures Totals(ids, counts, area) == map[] <==> ids == []
  {
    if ids != [] {
      assert area(ids[|ids| - 1]) in Totals(ids, counts, area);
    }
  }

  /**
   * Overwrite semantics: replacing a department's counts by `c` moves the
   * grand total by the difference; the counts of a department not listed do
   * not enter it.
   */
  lemma {:induction false} GrandTotalAfterUpdate(ids: seq<string>, counts: map<string, Counts>, id: string, c: Counts)
    requires AllReported(ids, counts)
    requires Grouping.Distinct(ids)
    ensures AllReported(ids, counts[id := c])
    ensures id in ids ==> GrandTotal(ids, counts[id := c]) == Plus(Minus(GrandTotal(ids, counts), counts[id]), c)
    ensures id !in ids ==> GrandTotal(ids, counts[id := c]) == GrandTotal(ids, counts)
  {
    if ids != [] {
      var init := ids[..|ids| - 1];
      assert AllReported(init, counts);
      assert Grouping.Distinct(init);
      GrandTotalAfterUpdate(init, counts, id, c);
      if ids[|ids| - 1] == id {
        assert id !in init;
      }
    }
  }

  /** The two cell-block departments both add to the one cell-block area. */
  lemma CellBlocksMerge(c1: Counts, c2: Counts)
    ensures var ids := ["690583e4d2739e469f4efba4", "68c7c559e6824a87950bc084"];
      var counts := map[ids[0] := c1, ids[1] := c2];
      && AllReported(ids, counts)
      && AreaOrder(ids, ResolveArea) == [CellArea]
      && Totals(ids, counts, ResolveArea) == map[CellArea := Plus(c1, c2)]
  {
    var ids := ["690583e4d2739e469f4efba4", "68c7c559e6824a87950bc084"];
    var counts := map[ids[0] := c1, ids[1] := c2];
    assert ResolveArea(ids[0]) == CellArea && ResolveArea(ids[1]) == CellArea;
    assert ids[..1] == [ids[0]] && [ids[0]][..0] == [];
    assert AllReported(ids, counts);
    assert Totals([ids[0]], counts, ResolveArea) == map[CellArea := Plus(Zero, c1)];
    assert Plus(Zero, c1) == c1;
  }

  /**
   * `AreaCountTracker`: the latest counts per department (the dict and its
   * insertion order) and the time of the last report.
   */
  class AreaCountTracker {
    var deptIds: seq<string>
    var deptCounts: map<string, Counts>
    var lastUpdateTime: Option<string>

    ghost predicate Valid()
      reads this
    {
      && Grouping.Distinct(deptIds)
      && AllReported(deptIds, deptCounts)
      && deptCounts.Keys == set id | id in deptIds
    }

    constructor()
      ensures Valid()
      ensures deptIds == [] && deptCounts == map[] && lastUpdateTime == None
    {
      deptIds := [];
      deptCounts := map[];
      lastUpdateTime := None;
    }

    /**
     * `update_counts` with the clock reading `clock`.  A truthy `data_count`
     * replaces the department's entry; a falsy one leaves the table alone;
     * either way the update time is set.  A truthy value that is not a dict
     * makes `.get` raise before anything changes: then `raised` is true.
     */
    method UpdateCounts(id: string, dataCount: Json, clock: string) returns (raised: bool)
      requires Valid()
      modifies this
      ensures Valid()
      ensures raised <==> Truthy(dataCount) && !dataCount.JObject?
      ensures raised ==> deptIds == old(deptIds) && deptCounts == old(deptCounts) && lastUpdateTime == old(lastUpdateTime)
      ensures !raised ==> lastUpdateTime == Some(clock)
      ensures !raised && Truthy(dataCount) ==>
        && deptCounts == old(deptCounts)[id := CountsOf(dataCount.fields)]
        && deptIds == (if id in old(deptCounts) then old(deptIds) else old(deptIds) + [id])
      ensures !Truthy(dataCount) ==> deptIds == old(deptIds) && deptCounts == old(deptCounts)
    {
      if Truthy(dataCount) {
        if !dataCount.JObject? {
          return true;
        }
        if id !in deptCounts {
          deptIds := deptIds + [id];
        }
        deptCounts := deptCounts[id := CountsOf(dataCount.fields)];
      }
      lastUpdateTime := Some(clock);
      return false;
    }

    /** `_aggregate_by_area`: the areas in first-seen order and their totals. */
    method AggregateByArea() returns (areas: seq<string>, totals: map<string, Counts>)
      requires AllReported(deptIds, deptCounts)
      ensures areas == AreaOrder(deptIds, ResolveArea)
      ensures totals == Totals(deptIds, deptCounts, ResolveArea)
    {
      areas := [];
      totals := map[];
      var i := 0;
      while i < |deptIds|
        invariant 0 <= i <= |deptIds|
        invariant areas == AreaOrder(deptIds[..i], ResolveArea)
        invariant totals == Totals(deptIds[..i], deptCounts, ResolveArea)
      {
        AggregateStep(deptIds, deptCounts, ResolveArea, i);
        var id := deptIds[i];
        var area := ResolveArea(id);
        assert area in totals <==> area in areas by {
          TotalsKeys(deptIds[..i], deptCounts, ResolveArea);
        }
        if area !in totals {
          areas := areas + [area];
        }
        var before := if area in totals then totals[area] else Zero;
        totals := totals[area := Plus(before, deptCounts[id])];
        i := i + 1;
      }
      assert deptIds[..i] == deptIds;
    }

    /**
     * The grand-total part of `display_counts`: nothing when no department
     * has reported, otherwise the sum of every area's counters.
     */
    method DisplayCounts() returns (grand: Option<Counts>)
      requires AllReported(deptIds, deptCounts)
      ensures grand == if deptIds == [] then None else Some(GrandTotal(deptIds, deptCounts))
    {
      var areas, totals := AggregateByArea();
      if totals == map[] {
        EmptyAggregation(deptIds, deptCounts, ResolveArea);
        return None;
      }
      ghost var expected := GrandTotal(deptIds, deptCounts);
      assert deptIds != [] && AllReported(areas, totals) && SumOver(areas, totals) == expected by {
        EmptyAggregation(deptIds, deptCounts, ResolveArea);
        AreaTotalsConserveCounts(deptIds, deptCounts, ResolveArea);
      }
      var total := Zero;
      var i := 0;
      while i < |areas|
        invariant 0 <= i <= |areas|
        invariant AllReported(areas, totals)
        invariant AllReported(areas[..i], totals)
        invariant total == SumOver(areas[..i], totals)
      {
        SumOverStep(areas, totals, i);
        total := Plus(total, totals[areas[i]]);
        i := i + 1;
      }
      assert areas[..i] == areas;
      assert total == expected;
      return Some(total);
    }
  }

  /** A socket payload: a dict, a JSON text (with its decoding, `None` when it does not decode), or anything else. */
  datatype Payload = ObjectPayload(fields: map<string, Json>) | TextPayload(decoded: Option<Json>) | OtherPayload

  /** `d.get(key)`, with `None` as `JNull`. */
  function Field(fields: map<string, Json>, key: string): Json {
    if key in fields then fields[key] else JNull
  }

  /**
   * The filter of `message_handler`: the department id and `data_count` to
   * update with, taken from a dict payload or a text that decodes to a dict,
   * when both are truthy.
   */
  function AcceptedUpdate(p: Payload): (u: Option<(string, Json)>)
    ensures u.Some? ==> Truthy(JStr(u.value.0)) && Truthy(u.value.1)
    ensures p.OtherPayload? || (p.TextPayload? && !(p.decoded.Some? && p.decoded.value.JObject?)) ==> u == None
    ensures p.ObjectPayload? || (p.TextPayload? && p.decoded.Some? && p.decoded.value.JObject?) ==>
      var f := if p.ObjectPayload? then p.fields else p.decoded.value.fields;
      var id, dc := Field(f, "department_id"), Field(f, "data_count");
      && (u.Some? <==> id.JStr? && id.s != "" && Truthy(dc))
      && (u.Some? ==> u.value == (id.s, dc))
  {
    var fields :=
      match p
      case ObjectPayload(f) => Some(f)
      case TextPayload(Some(JObject(f))) => Some(f)
      case _ => None;
    if fields.None? then None
    else
      var id, dc := Field(fields.value, "department_id"), Field(fields.value, "data_count");
      if Truthy(id) && Truthy(dc) && id.JStr? then Some((id.s, dc)) else None
  }

  /** Text and dict payloads with the same content are handled alike. */
  lemma TextAndObjectAgree(f: map<string, Json>)
    ensures AcceptedUpdate(TextPayload(Some(JObject(f)))) == AcceptedUpdate(ObjectPayload(f))
  {
  }

  /** A payload missing either field, or carrying a falsy one, updates nothing. */
  lemma FalsyFieldsIgnored(f: map<string, Json>)
    requires !Truthy(Field(f, "department_id")) || !Truthy(Field(f, "data_count"))
    ensures AcceptedUpdate(ObjectPayload(f)) == None
  {
  }

  /**
   * `message_handler` on the tracker: a payload that passes the filter is
   * handed to `update_counts` and then displayed.  When `data_count` is
   * truthy but no dict, `update_counts` raises, the handler's `except`
   * swallows the error, and nothing changes or is displayed.
   */
  method MessageHandler(t: AreaCountTracker, p: Payload, clock: string) returns (grand: Option<Counts>)
    requires t.Valid()
    modifies t
    ensures t.Valid()
    ensures AcceptedUpdate(p) == None || !AcceptedUpdate(p).value.1.JObject? ==>
      && t.deptIds == old(t.deptIds) && t.deptCounts == old(t.deptCounts)
      && t.lastUpdateTime == old(t.lastUpdateTime) && grand == None
    ensures AcceptedUpdate(p).Some? && AcceptedUpdate(p).value.1.JObject? ==>
      var (id, dc) := AcceptedUpdate(p).value;
      && t.deptCounts == old(t.deptCounts)[id := CountsOf(dc.fields)]
      && t.deptIds == (if id in old(t.deptCounts) then old(t.deptIds) else old(t.deptIds) + [id])
      && t.lastUpdateTime == Some(clock)
      && grand == Some(GrandTotal(t.deptIds, t.deptCounts))
  {
    grand := None;
    var u := AcceptedUpdate(p);
    if u.Some? {
      var raised := t.UpdateCounts(u.value.0, u.value.1, clock);
      if !raised {
        grand := t.DisplayCounts();
      }
    }
  }
}
