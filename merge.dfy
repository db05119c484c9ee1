/** `merge_nutritional_data` of the multi-dataset converter: when the merge
    policy meets an identifier that an earlier dataset already holds, the
    stored record and the new one are combined. Headline cells are averaged
    and rounded when both sides have a value, nutrient maps are united with
    shared keys averaged, and the notes are joined. */
module RecordMerge {
  import opened Records

  function Mean(a: real, b: real): (m: real)
    ensures (a <= m <= b) || (b <= m <= a)
    ensures m - a == b - m
  {
    (a + b) / 2.0
  }

  /** `round(x, 2)` on the exact value: the nearest hundredth, ties to the even
      hundredth. */
  function Round2(x: real): (r: real)
    ensures -0.005 <= r - x <= 0.005
    ensures (100.0 * r).Floor as real == 100.0 * r
    ensures r - x == 0.005 || x - r == 0.005 ==> (100.0 * r).Floor % 2 == 0
  {
    var y := 100.0 * x;
    var f := y.Floor;
    var d := y - f as real;
    var n := if d < 0.5 then f else if d > 0.5 then f + 1 else if f % 2 == 0 then f else f + 1;
    assert 100.0 * (n as real / 100.0) == n as real;
    n as real / 100.0
  }

  function Dist(a: real, b: real): real {
    if a <= b then b - a else a - b
  }

  /** No hundredth is nearer to `x` than `Round2(x)`. */
  lemma Round2Nearest(x: real, m: int)
    ensures Dist(x, Round2(x)) <= Dist(x, m as real / 100.0)
  {
    var y := 100.0 * x;
    var f := y.Floor;
    var n := (100.0 * Round2(x)).Floor;
    assert Round2(x) == n as real / 100.0;
    assert n == f || n == f + 1;
    assert Dist(y, n as real) <= Dist(y, m as real) by {
      if m <= f {
        assert y - m as real >= y - f as real;
      } else {
        assert m as real - y >= (f + 1) as real - y;
      }
    }
    assert Dist(x, Round2(x)) == Dist(y, n as real) / 100.0;
    assert Dist(x, m as real / 100.0) == Dist(y, m as real) / 100.0;
  }

  /** A whole number of hundredths is already rounded, so rounding twice is
      rounding once. */
  lemma Round2Hundredths(n: int)
    ensures Round2(n as real / 100.0) == n as real / 100.0
  {
    var y := 100.0 * (n as real / 100.0);
    assert y == n as real;
    assert y.Floor == n;
  }

  /** `row.get(field, 'NULL')`. */
  function CellOf(h: map<string, Cell>, field: string): (c: Cell)
    ensures field !in h ==> c.Null?
    ensures field in h ==> c == h[field]
  {
    if field in h then h[field] else Null
  }

  /** Whether the merge replaces headline cell `field`: both sides hold a number. */
  predicate Averaged(h1: map<string, Cell>, h2: map<string, Cell>, field: string) {
    field in HeadlineFields && CellOf(h1, field).Num? && CellOf(h2, field).Num?
  }

  /** The merged headline cells. */
  function MergeHeadline(h1: map<string, Cell>, h2: map<string, Cell>): (h: map<string, Cell>)
    ensures h.Keys == h1.Keys
    ensures forall f :: f in h ==> (h[f].Null? <==> h1[f].Null?)
    ensures forall f :: f in h && !Averaged(h1, h2, f) ==> h[f] == h1[f]
    ensures forall f :: f in h && Averaged(h1, h2, f) ==>
      h[f] == Num(Round2(Mean(h1[f].value, h2[f].value)))
      && -0.005 <= h[f].value - Mean(h1[f].value, h2[f].value) <= 0.005
  {
    map f | f in h1 ::
      if Averaged(h1, h2, f) then Num(Round2(Mean(h1[f].value, h2[f].value))) else h1[f]
  }

  /** The value the merge gives nutrient `k`: the mean when both maps have it,
      otherwise the one value there is. */
  function MergedValue(n1: map<string, real>, n2: map<string, real>, k: string): real
    requires k in n1 || k in n2
  {
    if k in n1 && k in n2 then Mean(n1[k], n2[k])
    else if k in n1 then n1[k]
    else n2[k]
  }

  /** The merged nutrient map: every key of either side, shared keys averaged
      and one-sided keys copied. */
  function MergeNutrition(n1: map<string, real>, n2: map<string, real>): (m: map<string, real>)
    ensures m.Keys == n1.Keys + n2.Keys
    ensures forall k :: k in n1 && k in n2 ==> m[k] == Mean(n1[k], n2[k])
    ensures forall k :: k in n1 && k !in n2 ==> m[k] == n1[k]
    ensures forall k :: k !in n1 && k in n2 ==> m[k] == n2[k]
  {
    map k | k in n1.Keys + n2.Keys :: MergedValue(n1, n2, k)
  }

  /** Merging nutrient maps does not depend on which record is the stored one. */
  lemma MergeNutritionCommutes(n1: map<string, real>, n2: map<string, real>)
    ensures MergeNutrition(n1, n2) == MergeNutrition(n2, n1)
  {
    var a, b := MergeNutrition(n1, n2), MergeNutrition(n2, n1);
    forall k | k in a ensures a[k] == b[k] {
      if k in n1 && k in n2 {
        assert Mean(n1[k], n2[k]) == Mean(n2[k], n1[k]);
      }
    }
  }

  /** Merging with an empty nutrient map, or with an equal one, changes nothing. */
  lemma MergeNutritionIdentity(n: map<string, real>)
    ensures MergeNutrition(n, map[]) == n
    ensures MergeNutrition(map[], n) == n
    ensures MergeNutrition(n, n) == n
  {
  }

  /** The merged record: headline and nutrients merged, the notes joined, every
      other field the stored record's. */
  function MergeRecords(existing: FoodRecord, incoming: FoodRecord): (m: FoodRecord)
    ensures m.(headline := existing.headline, nutrition := existing.nutrition, notes := existing.notes) == existing
    ensures m.headline == MergeHeadline(existing.headline, incoming.headline)
    ensures m.nutrition == MergeNutrition(existing.nutrition, incoming.nutrition)
    ensures m.notes == existing.notes + " | Merged with: " + incoming.notes
  {
    existing.(headline := MergeHeadline(existing.headline, incoming.headline),
              nutrition := MergeNutrition(existing.nutrition, incoming.nutrition),
              notes := existing.notes + " | Merged with: " + incoming.notes)
  }

  /** The headline loop of `merge_nutritional_data`: visit the eight fields in
      order and replace a cell by the rounded mean when both sides have a number. */
  method AverageHeadline(h1: map<string, Cell>, h2: map<string, Cell>) returns (headline: map<string, Cell>)
    ensures headline == MergeHeadline(h1, h2)
  {
    headline := h1;
    var i := 0;
    while i < |HeadlineFields|
      invariant 0 <= i <= |HeadlineFields|
      invariant headline.Keys == h1.Keys
      invariant forall f :: f in headline ==>
        headline[f] == (if f in HeadlineFields[..i] && Averaged(h1, h2, f)
                        then Num(Round2(Mean(h1[f].value, h2[f].value))) else h1[f])
    {
      var field := HeadlineFields[i];
      var val1, val2 := CellOf(h1, field), CellOf(h2, field);
      if val1 != Null && val2 != Null {
        headline := headline[field := Num(Round2(Mean(val1.value, val2.value)))];
      }
      assert HeadlineFields[..i + 1] == HeadlineFields[..i] + [field];
      i := i + 1;
    }
    assert HeadlineFields[..i] == HeadlineFields;
  }

  /** A map with the merged keys holding the merged values is the merged map. */
  lemma IsMergeNutrition(m: map<string, real>, n1: map<string, real>, n2: map<string, real>)
    requires m.Keys == n1.Keys + n2.Keys
    requires forall k :: k in m ==> m[k] == MergedValue(n1, n2, k)
    ensures m == MergeNutrition(n1, n2)
  {
  }

  /** The nutrient loop of `merge_nutritional_data`: walk the union of the keys
      and fill the merged map one key at a time. */
  method UniteNutrients(n1: map<string, real>, n2: map<string, real>) returns (nutrition: map<string, real>)
    ensures nutrition == MergeNutrition(n1, n2)
  {
    var allKeys := n1.Keys + n2.Keys;
    nutrition := map[];
    var remaining := allKeys;
    while remaining != {}
      invariant remaining <= allKeys
      invariant nutrition.Keys + remaining == allKeys
      invariant forall k :: k in nutrition ==> nutrition[k] == MergedValue(n1, n2, k)
      decreases |remaining|
    {
      var key :| key in remaining;
      var value;
      if key in n1 && key in n2 {
        value := Mean(n1[key], n2[key]);
      } else if key in n1 {
        value := n1[key];
      } else {
        value := n2[key];
      }
      assert value == MergedValue(n1, n2, key);
      nutrition := nutrition[key := value];
      remaining := remaining - {key};
      assert nutrition.Keys + remaining == allKeys;
    }
    IsMergeNutrition(nutrition, n1, n2);
  }

  /** `merge_nutritional_data`: copy the stored record, average the headline
      fields, merge the nutrient maps and join the notes. */
  method MergeNutritionalData(existing: FoodRecord, incoming: FoodRecord) returns (merged: FoodRecord)
    ensures merged == MergeRecords(existing, incoming)
  {
    var headline := AverageHeadline(existing.headline, incoming.headline);
    var nutrition := UniteNutrients(existing.nutrition, incoming.nutrition);
    merged := existing.(headline := headline, nutrition := nutrition,
                        notes := existing.notes + " | Merged with: " + incoming.notes);
  }

  /** A headline cell that is `NULL` in the stored record stays `NULL`, even
      when the incoming record has a value for it. */
  lemma NullHeadlineStaysNull(existing: FoodRecord, incoming: FoodRecord, field: string)
    requires field in existing.headline && existing.headline[field].Null?
    ensures MergeRecords(existing, incoming).headline[field].Null?
  {
  }

  /** Worked example: fat 10 and fat 20 merge to 15, and a nutrient only the
      incoming record has is copied. */
  lemma MergeNutritionExample()
    ensures MergeNutrition(map["fat" := 10.0], map["fat" := 20.0, "iron" := 2.0])
      == map["fat" := 15.0, "iron" := 2.0]
  {
    var m := MergeNutrition(map["fat" := 10.0], map["fat" := 20.0, "iron" := 2.0]);
    assert m.Keys == {"fat", "iron"};
  }
}
