/** The single-file converter (`food_converter.py`): every row of the input
    table becomes one output record, with an identifier made unique by
    numbering repeats `base`, `base_1`, `base_2`, ... */
module FoodConverter {
  import opened Common
  import opened Slug
  import Probe
  import Categories
  import opened Records

  /** `DEFAULT_SOURCE`, the source document of every record. */
  const DefaultSource: string := "#1food-moz.pdf"

  /** The identifier tried at attempt `k`: the base itself, then `base_k`. */
  function Candidate(base: string, k: nat): (id: string)
    ensures k == 0 ==> id == base
    ensures |id| >= |base|
  {
    if k == 0 then base else base + "_" + NatToString(k)
  }

  /** Different attempts give different identifiers, so the search ends. */
  lemma CandidateInjective(base: string)
    ensures Probe.InjectiveFrom((k: nat) => Candidate(base, k), 0)
  {
    forall i: nat, j: nat | Candidate(base, i) == Candidate(base, j) ensures i == j {
      if i > 0 && j > 0 {
        var p := base + "_";
        assert Candidate(base, i)[|p|..] == NatToString(i);
        assert Candidate(base, j)[|p|..] == NatToString(j);
        NatToStringInjective(i, j);
      }
    }
  }

  /** A numbered identifier keeps the identifier shape of its base. */
  lemma CandidateIsSlug(base: string, k: nat)
    requires IsSlug(base)
    ensures IsSlug(Candidate(base, k))
  {
    if k > 0 {
      NumberIsSlug(k);
      JoinIsSlug(base, NatToString(k));
    }
  }

  /** `k` is the first attempt whose identifier is free. */
  predicate FirstFreeAttempt(base: string, used: set<string>, k: nat) {
    Candidate(base, k) !in used && forall j: nat :: j < k ==> Candidate(base, j) in used
  }

  /** There is only one first free attempt. */
  lemma FirstFreeUnique(base: string, used: set<string>, k: nat)
    requires IsSlug(base) && FirstFreeAttempt(base, used, k)
    ensures UniqueId(base, used) == Candidate(base, k)
  {
    var k': nat :| FirstFreeAttempt(base, used, k') && UniqueId(base, used) == Candidate(base, k');
    if k' < k {
      assert Candidate(base, k') in used;
    }
  }

  /** The identifier `generate_unique_id` settles on for base identifier `base`
      against `used`: the first free attempt. */
  function UniqueId(base: string, used: set<string>): (id: string)
    requires IsSlug(base)
    ensures id !in used
    ensures IsSlug(id)
    ensures exists k: nat :: FirstFreeAttempt(base, used, k) && id == Candidate(base, k)
    ensures base !in used ==> id == base
  {
    var cand := (k: nat) => Candidate(base, k);
    CandidateInjective(base);
    var k := Probe.FirstFree(cand, used, 0, 0);
    CandidateIsSlug(base, k);
    assert FirstFreeAttempt(base, used, k) by {
      forall j: nat | j < k ensures Candidate(base, j) in used {
        assert cand(j) in used;
      }
    }
    Candidate(base, k)
  }

  /** When the base and its first `n` numbered forms are exactly the identifiers
      in use, the next name with that base gets number `n`: colliding names are
      numbered `base`, `base_1`, `base_2`, ... in the order they arrive. */
  lemma CollidingNamesNumbered(base: string, n: nat)
    requires IsSlug(base)
    ensures UniqueId(base, set j: nat | j < n :: Candidate(base, j)) == Candidate(base, n)
  {
    var used := set j: nat | j < n :: Candidate(base, j);
    CandidateInjective(base);
    assert Candidate(base, n) !in used by {
      forall j: nat | j < n ensures Candidate(base, j) != Candidate(base, n) {
        var cand := (k: nat) => Candidate(base, k);
        assert cand(j) == Candidate(base, j) && cand(n) == Candidate(base, n);
      }
    }
    assert FirstFreeAttempt(base, used, n);
  }

  /** The Python set `used_ids`, which `generate_unique_id` grows in place. */
  class UsedIds {
    var ids: set<string>

    constructor()
      ensures ids == {}
    {
      ids := {};
    }
  }

  /** Pigeonhole for the attempts: at most `|used|` of them can all be taken. */
  lemma AttemptsTakenBound(base: string, used: set<string>, n: nat)
    requires forall j: nat :: j < n ==> Candidate(base, j) in used
    ensures n <= |used|
  {
    var cand := (k: nat) => Candidate(base, k);
    CandidateInjective(base);
    assert Probe.AllTaken(cand, used, 0, n) by {
      forall j: nat | j < n ensures cand(j) in used {
        assert cand(j) == Candidate(base, j);
      }
    }
    Probe.TakenBound(cand, used, 0, n);
  }

  /** The duplicate loop of `generate_unique_id`: try the base and then
      `base_1`, `base_2`, ... until one is not in `used`. */
  method FirstFreeId(base: string, used: set<string>) returns (id: string)
    requires IsSlug(base)
    ensures id == UniqueId(base, used)
  {
    var counter := 1;
    id := base;
    while id in used
      invariant counter >= 1
      invariant id == Candidate(base, counter - 1)
      invariant forall j: nat :: j < counter - 1 ==> Candidate(base, j) in used
      decreases |used| - counter
    {
      AttemptsTakenBound(base, used, counter);
      id := base + "_" + NatToString(counter);
      counter := counter + 1;
    }
    assert FirstFreeAttempt(base, used, counter - 1);
    FirstFreeUnique(base, used, counter - 1);
  }

  /** `generate_unique_id`: clean the name, find the first free attempt, and
      record it as used. */
  method GenerateUniqueId(name: string, usedIds: UsedIds) returns (id: string)
    modifies usedIds
    ensures id !in old(usedIds.ids)
    ensures usedIds.ids == old(usedIds.ids) + {id}
    ensures id == UniqueId(GenerateIdFromName(name), old(usedIds.ids))
  {
    var base := GenerateIdFromName(name);
    id := FirstFreeId(base, usedIds.ids);
    usedIds.ids := usedIds.ids + {id};
  }

  /** The notes text of the record made from input row `index` (from 1). */
  function EntryNote(index: nat): string {
    "Entry " + NatToString(index) + " from source table"
  }

  /** The record the row loop builds for input row `index`, given the identifiers
      used before it. */
  function ConvertRow(row: Row, description: string, index: nat, used: set<string>,
                      parse: string -> Option<real>): (r: FoodRecord)
    ensures r.id == UniqueId(GenerateIdFromName(TrimDescription(description)), used)
    ensures r.id !in used
    ensures r.name == TrimDescription(description)
    ensures r.category == Categories.Categorize(r.name) && r.sourcePdf == DefaultSource
    ensures r.notes == EntryNote(index)
    ensures r.headline == ExtractHeadline(row, parse) && r.nutrition == ExtractNutrients(row, parse) && HeadlineAgrees(r)
    ensures r.unitConfig == Units.GetUnitConfig(r.name, r.category) && r.portionG == PortionGrams && r.page == DefaultPage
  {
    var name := TrimDescription(description);
    BuildRecord(UniqueId(GenerateIdFromName(name), used), name, row, DefaultSource, Categories.Categorize(name), EntryNote(index), parse)
  }

  /** How a run ends: the input file is missing, a row has no `description`
      (the `KeyError` or `None.strip()` that stops the script; `entry` counts
      from 1), or every row was converted. */
  datatype Conversion = FileNotFound | MissingDescription(entry: nat) | Converted(records: seq<FoodRecord>)

  /** The identifiers of a sequence of records. */
  function Ids(records: seq<FoodRecord>): (ids: set<string>)
    ensures forall i :: 0 <= i < |records| ==> records[i].id in ids
  {
    set i | 0 <= i < |records| :: records[i].id
  }

  /** Pairwise distinct identifiers. */
  predicate DistinctIds(records: seq<FoodRecord>) {
    forall i, j :: 0 <= i < j < |records| ==> records[i].id != records[j].id
  }

  /** Appending a record adds its identifier. */
  lemma IdsAppend(out: seq<FoodRecord>, rec: FoodRecord)
    ensures Ids(out + [rec]) == Ids(out) + {rec.id}
  {
    var ext := out + [rec];
    forall x | x in Ids(ext) ensures x in Ids(out) + {rec.id} {
      var i :| 0 <= i < |ext| && ext[i].id == x;
      if i < |out| {
        assert ext[i] == out[i];
      }
    }
    forall i | 0 <= i < |out| ensures out[i].id in Ids(ext) {
      assert ext[i] == out[i];
    }
    assert ext[|out|] == rec;
  }

  /** Appending a record whose identifier is new keeps the identifiers distinct. */
  lemma AppendFreshId(out: seq<FoodRecord>, rec: FoodRecord)
    requires DistinctIds(out) && rec.id !in Ids(out)
    ensures DistinctIds(out + [rec])
  {
    var ext := out + [rec];
    forall i | 0 <= i < |out| ensures ext[i] == out[i] {
    }
  }

  /** How the row loop builds a record: from the row, its `description`, its
      number (from 1) and the identifiers used before it. */
  type RowBuilder = (Row, string, nat, set<string>) -> FoodRecord

  /** The record building of `convert_food_data`. */
  function Builder(parse: string -> Option<real>): RowBuilder {
    (row: Row, description: string, index: nat, used: set<string>) => ConvertRow(row, description, index, used, parse)
  }

  /** Applying the builder is building the record. */
  lemma BuilderApplies(parse: string -> Option<real>, row: Row, description: string, index: nat, used: set<string>)
    ensures Builder(parse)(row, description, index, used) == ConvertRow(row, description, index, used, parse)
  {
  }

  /** The row loop over the first `k` rows. */
  function ConvertPrefix(rows: seq<Row>, k: nat, build: RowBuilder): (r: Conversion)
    requires k <= |rows|
    ensures !r.FileNotFound?
    ensures r.Converted? <==> forall j :: 0 <= j < k ==> "description" in rows[j]
    ensures r.Converted? ==> |r.records| == k
    ensures r.MissingDescription? ==>
      1 <= r.entry <= k && "description" !in rows[r.entry - 1]
      && forall j :: 0 <= j < r.entry - 1 ==> "description" in rows[j]
    decreases k
  {
    if k == 0 then Converted([])
    else
      var prev := ConvertPrefix(rows, k - 1, build);
      if !prev.Converted? then prev
      else if "description" !in rows[k - 1] then MissingDescription(k)
      else Converted(prev.records + [build(rows[k - 1], rows[k - 1]["description"], k, Ids(prev.records))])
  }

  /** `convert_food_data` up to writing the output: the records of all rows. */
  function Convert(rows: Option<seq<Row>>, parse: string -> Option<real>): (r: Conversion)
    ensures r.FileNotFound? <==> rows.None?
    ensures rows.Some? ==> (r.Converted? <==> forall j :: 0 <= j < |rows.value| ==> "description" in rows.value[j])
    ensures r.Converted? ==> |r.records| == |rows.value|
    ensures r.MissingDescription? ==>
      1 <= r.entry <= |rows.value| && "description" !in rows.value[r.entry - 1]
      && forall j :: 0 <= j < r.entry - 1 ==> "description" in rows.value[j]
  {
    if rows.None? then FileNotFound else ConvertPrefix(rows.value, |rows.value|, Builder(parse))
  }

  /** The builder never reuses an identifier it is told is in use. */
  ghost predicate FreshIds(build: RowBuilder) {
    forall row, description, index, used :: build(row, description, index, used).id !in used
  }

  /** The builder only gives identifier-shaped identifiers. */
  ghost predicate SlugIds(build: RowBuilder) {
    forall row, description, index, used :: IsSlug(build(row, description, index, used).id)
  }

  /** The record building of `convert_food_data` allocates fresh,
      identifier-shaped identifiers. */
  lemma BuilderIds(parse: string -> Option<real>)
    ensures FreshIds(Builder(parse)) && SlugIds(Builder(parse))
  {
    forall row, description, index, used
      ensures Builder(parse)(row, description, index, used).id !in used
      ensures IsSlug(Builder(parse)(row, description, index, used).id)
    {
      BuilderApplies(parse, row, description, index, used);
    }
  }

  /** The converted records have pairwise distinct identifiers. */
  lemma {:induction false} ConvertedIdsDistinct(rows: seq<Row>, k: nat, build: RowBuilder)
    requires k <= |rows| && ConvertPrefix(rows, k, build).Converted? && FreshIds(build)
    ensures DistinctIds(ConvertPrefix(rows, k, build).records)
    decreases k
  {
    if k > 0 {
      ConvertedIdsDistinct(rows, k - 1, build);
      var p := ConvertPrefix(rows, k - 1, build);
      var rec := build(rows[k - 1], rows[k - 1]["description"], k, Ids(p.records));
      assert ConvertPrefix(rows, k, build).records == p.records + [rec];
      AppendFreshId(p.records, rec);
    }
  }

  /** A later prefix extends an earlier one: converting more rows never changes
      a record already built. */
  lemma {:induction false} PrefixStable(rows: seq<Row>, j: nat, k: nat, build: RowBuilder)
    requires j <= k <= |rows| && ConvertPrefix(rows, k, build).Converted?
    ensures ConvertPrefix(rows, j, build).Converted?
    ensures forall i :: 0 <= i < j ==>
      ConvertPrefix(rows, j, build).records[i] == ConvertPrefix(rows, k, build).records[i]
    decreases k
  {
    if j < k {
      PrefixStable(rows, j, k - 1, build);
      var p := ConvertPrefix(rows, k - 1, build);
      var rec := build(rows[k - 1], rows[k - 1]["description"], k, Ids(p.records));
      assert ConvertPrefix(rows, k, build).records == p.records + [rec];
    }
  }

  /** Every converted record is the one built from its own row (numbered from
      1), against the identifiers of the records before it. */
  lemma ConvertedRecord(rows: seq<Row>, k: nat, build: RowBuilder, i: nat)
    requires k <= |rows| && ConvertPrefix(rows, k, build).Converted? && i < k
    ensures ConvertPrefix(rows, i, build).Converted?
    ensures ConvertPrefix(rows, k, build).records[i] ==
      build(rows[i], rows[i]["description"], i + 1, Ids(ConvertPrefix(rows, i, build).records))
  {
    PrefixStable(rows, i + 1, k, build);
    PrefixStable(rows, i, i + 1, build);
  }

  /** The records of a run of `convert_food_data` have pairwise distinct,
      identifier-shaped identifiers. */
  lemma ConvertFacts(rows: Option<seq<Row>>, parse: string -> Option<real>)
    ensures Convert(rows, parse).Converted? ==>
      var records := Convert(rows, parse).records;
      && DistinctIds(records)
      && (forall i :: 0 <= i < |records| ==> IsSlug(records[i].id))
  {
    if rows.Some? && Convert(rows, parse).Converted? {
      var input := rows.value;
      var records := Convert(rows, parse).records;
      BuilderIds(parse);
      ConvertedIdsDistinct(input, |input|, Builder(parse));
      forall i | 0 <= i < |records| ensures IsSlug(records[i].id) {
        ConvertedRecord(input, |input|, Builder(parse), i);
      }
    }
  }

  /** Record `i` of a run is the one built from row `i` (numbered `i + 1`)
      against the identifiers of the records before it. */
  lemma ConvertedRowAt(input: seq<Row>, parse: string -> Option<real>, i: nat)
    requires Convert(Some(input), parse).Converted? && i < |input|
    ensures Convert(Some(input), parse).records[i] ==
      ConvertRow(input[i], input[i]["description"], i + 1,
                 Ids(ConvertPrefix(input, i, Builder(parse)).records), parse)
  {
    ConvertedRecord(input, |input|, Builder(parse), i);
    BuilderApplies(parse, input[i], input[i]["description"], i + 1,
                   Ids(ConvertPrefix(input, i, Builder(parse)).records));
  }

  /** The row loop of `convert_food_data`: read the name, allocate a unique
      identifier, build the record, append it; `used_ids` holds exactly the
      identifiers emitted so far. Blank names are not skipped. */
  method ConvertFoodData(rows: Option<seq<Row>>, parse: string -> Option<real>) returns (result: Conversion)
    ensures result == Convert(rows, parse)
  {
    if rows.None? {
      return FileNotFound;
    }
    var input := rows.value;
    var outputRows: seq<FoodRecord> := [];
    var usedIds := new UsedIds();
    var index := 0;
    while index < |input|
      invariant 0 <= index <= |input|
      invariant ConvertPrefix(input, index, Builder(parse)) == Converted(outputRows)
      invariant usedIds.ids == Ids(outputRows)
    {
      var row := input[index];
      if "description" !in row {
        return MissingDescription(index + 1);
      }
      var foodName := TrimDescription(row["description"]);
      var foodId := GenerateUniqueId(foodName, usedIds);
      var category := Categories.Categorize(foodName);
      var outputRow := BuildRecord(foodId, foodName, row, DefaultSource, category, EntryNote(index + 1), parse);
      assert outputRow == ConvertRow(row, row["description"], index + 1, Ids(outputRows), parse);
      BuilderApplies(parse, row, row["description"], index + 1, Ids(outputRows));
      IdsAppend(outputRows, outputRow);
      outputRows := outputRows + [outputRow];
      index := index + 1;
    }
    return Converted(outputRows);
  }
}
