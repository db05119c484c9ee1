/** The multi-dataset converter (`multi_dataset_converter.py`): each enabled
    input table is converted in turn, identifiers that clash with earlier
    datasets are resolved by the configured strategy, and the results are
    folded into one collection keyed by identifier. */
module MultiDataset {
  import opened Common
  import opened Slug
  import opened Records
  import opened RecordMerge
  import opened Conflicts

  /** One entry of `INPUT_FILES`. */
  datatype DatasetConfig = DatasetConfig(path: string, source: string, categoryOverride: Option<string>, enabled: bool)

  /** The counters `process_single_dataset` reports for one dataset. */
  datatype Stats = Stats(file: string, total: nat, added: nat, skipped: nat, merged: nat, conflicts: seq<string>)

  /** The records of one dataset so far, with its counters. */
  datatype Progress = Progress(data: map<string, FoodRecord>, stats: Stats)

  /** The input tables that exist, by path, already read into rows. */
  type Files = map<string, seq<Row>>

  /** The notes text of the record made from row `rowNum` (from 1) of dataset `n`. */
  function DatasetNote(n: nat, rowNum: nat): string {
    "Dataset " + NatToString(n) + ", Entry " + NatToString(rowNum)
  }

  /** `create_output_row`. */
  function CreateOutputRow(foodId: string, foodName: string, row: Row, sourcePdf: string,
                           categoryOverride: Option<string>, rowNum: nat, datasetNum: nat,
                           parse: string -> Option<real>): (r: FoodRecord)
    ensures r.id == foodId && r.name == foodName && r.sourcePdf == sourcePdf
    ensures r.category == ChooseCategory(categoryOverride, foodName)
    ensures r.notes == DatasetNote(datasetNum, rowNum)
    ensures r.portionG == PortionGrams && r.page == DefaultPage
    ensures r.headline == ExtractHeadline(row, parse) && r.nutrition == ExtractNutrients(row, parse)
    ensures HeadlineAgrees(r) && Units.WellFormed(r.unitConfig)
    ensures r.unitConfig == Units.GetUnitConfig(foodName, r.category)
    ensures forall k :: k in NutrientColumn ==>
      (k in r.nutrition <==> SafeFloat(Field(row, NutrientColumn[k]), parse).Some?)
  {
    BuildRecord(foodId, foodName, row, sourcePdf, ChooseCategory(categoryOverride, foodName),
                DatasetNote(datasetNum, rowNum), parse)
  }

  /** The counters before the first row. */
  function NoStats(file: string): Stats {
    Stats(file, 0, 0, 0, 0, [])
  }

  /** The counters after a row with a name, whose identifier the conflict
      strategy answered with `action`: one more row in total and one more in
      the outcome's own counter; a skipped row also records `conflict`. */
  function Tally(stats: Stats, action: Action, conflict: string): (t: Stats)
    ensures t.file == stats.file && t.total == stats.total + 1
    ensures t.added + t.skipped + t.merged == stats.added + stats.skipped + stats.merged + 1
    ensures t.skipped == stats.skipped + (if action == Skipped then 1 else 0)
    ensures t.merged == stats.merged + (if action == Merged then 1 else 0)
    ensures t.conflicts == stats.conflicts + (if action == Skipped then [conflict] else [])
  {
    var counted := stats.(total := stats.total + 1);
    if action == Skipped then counted.(skipped := counted.skipped + 1, conflicts := counted.conflicts + [conflict])
    else if action == Merged then counted.(merged := counted.merged + 1)
    else counted.(added := counted.added + 1)
  }

  /** What one row of a dataset comes to, worked out against the records of the
      earlier datasets: no `description` column (the `KeyError` that abandons
      the dataset), a blank name (not counted), a skipped identifier with its
      conflict entry, or the record to store under an identifier. */
  datatype RowOutcome =
    | NoDescription
    | Blank
    | Conflict(entry: string)
    | Store(action: Action, id: string, record: FoodRecord)

  /** A row with name `name`: its identifier resolved, and unless it is skipped
      its record built and, when the merge strategy met an earlier record,
      merged into that record. */
  function NamedOutcome(config: DatasetConfig, existing: map<string, FoodRecord>, n: nat, policy: Policy,
                        parse: string -> Option<real>, row: Row, rowNum: nat, name: string): (o: RowOutcome)
    ensures o.Conflict? || o.Store?
    ensures o.Conflict? <==> policy.Skip? && GenerateIdFromName(name) in existing
  {
    var base := GenerateIdFromName(name);
    var (finalId, action) := Resolve(base, existing.Keys, n, policy);
    if action == Skipped then Conflict(name + " (ID: " + base + ")")
    else
      var rec := CreateOutputRow(finalId, name, row, config.source, config.categoryOverride, rowNum, n, parse);
      Store(action, finalId, if action == Merged && finalId in existing then MergeRecords(existing[finalId], rec) else rec)
  }

  /** Row `rowNum` (from 1) of dataset `n`. It depends on the earlier datasets
      and not on the earlier rows of the same dataset. */
  function RowOutcomeOf(config: DatasetConfig, existing: map<string, FoodRecord>, n: nat, policy: Policy,
                        parse: string -> Option<real>, row: Row, rowNum: nat): (o: RowOutcome)
    ensures o.NoDescription? <==> "description" !in row
    ensures o.Blank? <==> "description" in row && TrimDescription(row["description"]) == []
    ensures o.Conflict? <==> "description" in row && TrimDescription(row["description"]) != []
                             && policy.Skip? && GenerateIdFromName(TrimDescription(row["description"])) in existing
  {
    if "description" !in row then NoDescription
    else
      var name := TrimDescription(row["description"]);
      if name == [] then Blank else NamedOutcome(config, existing, n, policy, parse, row, rowNum, name)
  }

  /** `RowOutcomeOf` with the settings of one dataset fixed. */
  function Classifier(config: DatasetConfig, existing: map<string, FoodRecord>, n: nat, policy: Policy,
                      parse: string -> Option<real>): (classify: (Row, nat) -> RowOutcome)
    ensures forall row: Row, num: nat :: classify(row, num) == RowOutcomeOf(config, existing, n, policy, parse, row, num)
  {
    (row: Row, num: nat) => RowOutcomeOf(config, existing, n, policy, parse, row, num)
  }

  /** The outcomes of all rows of a dataset, in order; rows are numbered from 1. */
  function Outcomes(classify: (Row, nat) -> RowOutcome, rows: seq<Row>): (os: seq<RowOutcome>)
    ensures |os| == |rows|
    ensures forall j :: 0 <= j < |rows| ==> os[j] == classify(rows[j], j + 1)
  {
    seq(|rows|, j requires 0 <= j < |rows| => classify(rows[j], j + 1))
  }

  /** The effect of one row on the records and counters of its dataset. */
  function Apply(p: Progress, o: RowOutcome): (r: Option<Progress>)
    ensures r.None? <==> o.NoDescription?
    ensures r.Some? ==> r.value.stats.file == p.stats.file
    ensures o.Blank? ==> r == Some(p)
    ensures o.Conflict? ==> r.value.data == p.data && r.value.stats.skipped == p.stats.skipped + 1
    ensures o.Store? ==>
      && r.value.data.Keys == p.data.Keys + {o.id} && r.value.data[o.id] == o.record
      && forall id :: id in p.data && id != o.id ==> r.value.data[id] == p.data[id]
    ensures o.Conflict? || o.Store? ==> r.value.stats.total == p.stats.total + 1
  {
    match o
    case NoDescription => None
    case Blank => Some(p)
    case Conflict(entry) => Some(Progress(p.data, Tally(p.stats, Skipped, entry)))
    case Store(action, id, record) =>
      Some(Progress(p.data[id := record], Tally(p.stats, if action == Merged then Merged else Added, "")))
  }

  /** The row loop over the first `k` outcomes of a dataset. */
  function Fold(outcomes: seq<RowOutcome>, file: string, k: nat): (r: Option<Progress>)
    requires k <= |outcomes|
    ensures r.Some? ==> r.value.stats.file == file && r.value.stats.total <= k
    decreases k
  {
    if k == 0 then Some(Progress(map[], NoStats(file)))
    else
      var prev := Fold(outcomes, file, k - 1);
      if prev.None? then None else Apply(prev.value, outcomes[k - 1])
  }

  /** `process_single_dataset`: `None` when the file is missing or a row has no
      `description` (the exceptions that make the caller skip the dataset). */
  function ProcessDataset(config: DatasetConfig, existing: map<string, FoodRecord>, n: nat, policy: Policy,
                          files: Files, parse: string -> Option<real>): (r: Option<Progress>)
    ensures config.path !in files ==> r.None?
    ensures r.Some? ==> r.value.stats.file == config.path && r.value.stats.total <= |files[config.path]|
  {
    if config.path !in files then None
    else
      var rows := files[config.path];
      Fold(Outcomes(Classifier(config, existing, n, policy, parse), rows), config.path, |rows|)
  }

  /** One more row is one more step of the loop. */
  lemma FoldStep(outcomes: seq<RowOutcome>, file: string, k: nat)
    requires k < |outcomes|
    ensures Fold(outcomes, file, k + 1)
      == (var prev := Fold(outcomes, file, k); if prev.None? then None else Apply(prev.value, outcomes[k]))
  {
  }

  /** The part of the row loop body of `process_single_dataset` that reads the
      name and skips a blank one. */
  method ClassifyRow(config: DatasetConfig, existingData: map<string, FoodRecord>, datasetNumber: nat,
                     policy: Policy, parse: string -> Option<real>, row: Row, rowNum: nat)
    returns (outcome: RowOutcome)
    ensures outcome == RowOutcomeOf(config, existingData, datasetNumber, policy, parse, row, rowNum)
  {
    if "description" !in row {
      return NoDescription;
    }
    var foodName := TrimDescription(row["description"]);
    if foodName == [] {
      return Blank;
    }
    outcome := ClassifyNamedRow(config, existingData, datasetNumber, policy, parse, row, rowNum, foodName);
  }

  /** The rest of the loop body for a row with a name: generate the base
      identifier, resolve it against the earlier datasets, and unless it is
      skipped build the record, merged with the earlier one when the strategy
      says so. */
  method ClassifyNamedRow(config: DatasetConfig, existingData: map<string, FoodRecord>, datasetNumber: nat,
                          policy: Policy, parse: string -> Option<real>, row: Row, rowNum: nat, foodName: string)
    returns (outcome: RowOutcome)
    ensures outcome == NamedOutcome(config, existingData, datasetNumber, policy, parse, row, rowNum, foodName)
  {
    var baseId := GenerateIdFromName(foodName);
    var finalId, action := ResolveIdConflict(baseId, existingData, datasetNumber, policy);
    if action == Skipped {
      return Conflict(foodName + " (ID: " + baseId + ")");
    }
    var rowData := CreateOutputRow(finalId, foodName, row, config.source, config.categoryOverride,
                                   rowNum, datasetNumber, parse);
    if action == Merged && finalId in existingData {
      rowData := MergeNutritionalData(existingData[finalId], rowData);
    }
    return Store(action, finalId, rowData);
  }

  /** The rest of the loop body: a missing `description` ends the dataset, a
      blank name is passed over, a skipped row is counted with its conflict
      entry, and any other row is counted as added or merged and its record
      stored under its identifier, replacing an earlier row's. */
  method CountRow(processedData: map<string, FoodRecord>, stats: Stats, outcome: RowOutcome)
    returns (next: Option<Progress>)
    ensures next == Apply(Progress(processedData, stats), outcome)
  {
    match outcome {
      case NoDescription =>
        return None;
      case Blank =>
        return Some(Progress(processedData, stats));
      case Conflict(entry) =>
        var counted := stats.(total := stats.total + 1);
        counted := counted.(skipped := counted.skipped + 1, conflicts := counted.conflicts + [entry]);
        return Some(Progress(processedData, counted));
      case Store(action, finalId, rowData) =>
        var counted := stats.(total := stats.total + 1);
        if action == Merged {
          counted := counted.(merged := counted.merged + 1);
        } else {
          counted := counted.(added := counted.added + 1);
        }
        return Some(Progress(processedData[finalId := rowData], counted));
    }
  }

  /** `process_single_dataset`: run the row loop over the dataset's rows, from
      empty records and zero counters, counting each row with a name and
      storing each record that is not skipped. `existing_data` is only read. */
  method ProcessSingleDataset(config: DatasetConfig, existingData: map<string, FoodRecord>, datasetNumber: nat,
                              policy: Policy, files: Files, parse: string -> Option<real>)
    returns (result: Option<Progress>)
    ensures result == ProcessDataset(config, existingData, datasetNumber, policy, files, parse)
  {
    if config.path !in files {
      return None;
    }
    var rows := files[config.path];
    ghost var outcomes := Outcomes(Classifier(config, existingData, datasetNumber, policy, parse), rows);
    var processedData: map<string, FoodRecord> := map[];
    var stats := NoStats(config.path);
    var rowNum := 0;
    while rowNum < |rows|
      invariant 0 <= rowNum <= |rows|
      invariant Fold(outcomes, config.path, rowNum) == Some(Progress(processedData, stats))
    {
      var outcome := ClassifyRow(config, existingData, datasetNumber, policy, parse, rows[rowNum], rowNum + 1);
      assert outcome == outcomes[rowNum];
      var next := CountRow(processedData, stats, outcome);
      FoldStep(outcomes, config.path, rowNum);
      if next.None? {
        AbortIsFinal(outcomes, config.path, rowNum + 1, |rows|);
        return None;
      }
      processedData, stats := next.value.data, next.value.stats;
      rowNum := rowNum + 1;
    }
    return Some(Progress(processedData, stats));
  }

  /** The counters add up: every counted row was added, skipped or merged, and
      each skipped row left one conflict entry. */
  predicate Balanced(s: Stats) {
    s.total == s.added + s.skipped + s.merged && |s.conflicts| == s.skipped
  }

  /** Every record is stored under its own identifier. */
  predicate IdsMatchKeys(data: map<string, FoodRecord>) {
    forall id :: id in data ==> data[id].id == id
  }

  /** Every key has the identifier shape. */
  predicate KeysAreSlugs(data: map<string, FoodRecord>) {
    forall id :: id in data ==> IsSlug(id)
  }

  /** `record` is `earlier` merged with some new record. */
  ghost predicate MergedFrom(record: FoodRecord, earlier: FoodRecord) {
    exists incoming :: record == MergeRecords(earlier, incoming)
  }

  /** What may be stored under `id` in a dataset resolved against `existing`:
      the identifier has the identifier shape; under the skip and suffix
      strategies it is new; under the merge strategy a record under an
      earlier identifier is the earlier record merged with a new one, and any
      other record is stored under its own identifier. */
  ghost predicate StoredFits(id: string, record: FoodRecord, existing: map<string, FoodRecord>, policy: Policy) {
    && IsSlug(id)
    && ((policy.Skip? || policy.Suffix?) ==> id !in existing)
    && (policy.Merge? && id in existing ==> MergedFrom(record, existing[id]))
    && (!(policy.Merge? && id in existing) ==> record.id == id)
  }

  /** What a row can come to: a conflict entry only under the skip strategy
      and only when an earlier dataset exists; a stored record that fits, with
      the `merged` action exactly when the merge strategy met an earlier
      identifier. */
  ghost predicate Fits(o: RowOutcome, existing: map<string, FoodRecord>, policy: Policy) {
    match o
    case Conflict(_) => policy.Skip? && existing != map[]
    case Store(action, id, record) =>
      && StoredFits(id, record, existing, policy)
      && (action == Merged <==> policy.Merge? && id in existing)
    case _ => true
  }

  /** Every outcome of a row fits the earlier datasets and the strategy. */
  lemma RowOutcomeFits(config: DatasetConfig, existing: map<string, FoodRecord>, n: nat, policy: Policy,
                       parse: string -> Option<real>, row: Row, rowNum: nat)
    ensures Fits(RowOutcomeOf(config, existing, n, policy, parse, row, rowNum), existing, policy)
  {
    if "description" in row && TrimDescription(row["description"]) != [] {
      var name := TrimDescription(row["description"]);
      var base := GenerateIdFromName(name);
      var (finalId, action) := Resolve(base, existing.Keys, n, policy);
      assert IsSlug(finalId) by {
        if policy.Suffix? && base in existing {
          var k: nat :| FirstFreeAttempt(base, n, existing.Keys, k) && finalId == DsCandidate(base, n, k);
          DsCandidateIsSlug(base, n, k);
        }
      }
    }
  }

  /** The record a named row stores: the row's own record
      (`create_output_row`), merged into the earlier record when the merge
      strategy met its identifier. */
  lemma NamedOutcomeRecord(config: DatasetConfig, existing: map<string, FoodRecord>, n: nat, policy: Policy,
                           parse: string -> Option<real>, row: Row, rowNum: nat, name: string)
    ensures var o := NamedOutcome(config, existing, n, policy, parse, row, rowNum, name);
      o.Store? ==>
        && var rec := CreateOutputRow(o.id, name, row, config.source, config.categoryOverride, rowNum, n, parse);
        && o.id == Resolve(GenerateIdFromName(name), existing.Keys, n, policy).0
        && (o.action == Merged ==> o.id in existing && o.record == MergeRecords(existing[o.id], rec))
        && (o.action != Merged ==> o.record == rec)
  {
  }

  /** Conflicts are looked up among the earlier datasets only: two rows of one
      dataset with the same name get the same identifier and the same action,
      so the later row's record replaces the earlier one's. */
  lemma SameNameSameId(config: DatasetConfig, existing: map<string, FoodRecord>, n: nat, policy: Policy,
                       parse: string -> Option<real>, row1: Row, rowNum1: nat, row2: Row, rowNum2: nat)
    requires "description" in row1 && "description" in row2
    requires TrimDescription(row1["description"]) == TrimDescription(row2["description"]) != []
    ensures var o1 := RowOutcomeOf(config, existing, n, policy, parse, row1, rowNum1);
      var o2 := RowOutcomeOf(config, existing, n, policy, parse, row2, rowNum2);
      && (o1.Conflict? <==> o2.Conflict?)
      && (o1.Store? ==> o2.Store? && o1.id == o2.id && o1.action == o2.action)
  {
  }

  /** Once a row aborts the dataset, longer prefixes abort too. */
  lemma {:induction false} AbortIsFinal(outcomes: seq<RowOutcome>, file: string, j: nat, k: nat)
    requires j <= k <= |outcomes| && Fold(outcomes, file, j).None?
    ensures Fold(outcomes, file, k).None?
    decreases k
  {
    if j < k {
      AbortIsFinal(outcomes, file, j, k - 1);
    }
  }

  /** The loop fails exactly when one of its rows has no `description`. */
  lemma {:induction false} FoldFails(outcomes: seq<RowOutcome>, file: string, k: nat)
    requires k <= |outcomes|
    ensures Fold(outcomes, file, k).None? <==> exists j :: 0 <= j < k && outcomes[j].NoDescription?
    decreases k
  {
    if k > 0 {
      FoldFails(outcomes, file, k - 1);
    }
  }

  /** The counters after `k` rows: the file name, at most one count per row,
      balanced counts, no skips unless the skip strategy met an earlier
      dataset, and no merges unless the merge strategy did. */
  lemma {:induction false} FoldStats(outcomes: seq<RowOutcome>, file: string, existing: map<string, FoodRecord>,
                                     policy: Policy, k: nat)
    requires k <= |outcomes|
    requires forall j :: 0 <= j < k ==> Fits(outcomes[j], existing, policy)
    ensures Fold(outcomes, file, k).Some? ==>
      var s := Fold(outcomes, file, k).value.stats;
      && s.file == file && s.total <= k && Balanced(s)
      && (!policy.Skip? || existing == map[] ==> s.skipped == 0)
      && (!policy.Merge? || existing == map[] ==> s.merged == 0)
    decreases k
  {
    if k > 0 {
      FoldStats(outcomes, file, existing, policy, k - 1);
    }
  }

  /** The keys after `k` rows: exactly the identifiers of the rows that were
      stored, so skipped and blank rows never enter. */
  lemma {:induction false} FoldKeys(outcomes: seq<RowOutcome>, file: string, k: nat)
    requires k <= |outcomes|
    ensures Fold(outcomes, file, k).Some? ==>
      forall id :: id in Fold(outcomes, file, k).value.data <==>
        exists j :: 0 <= j < k && outcomes[j].Store? && outcomes[j].id == id
    decreases k
  {
    if k > 0 {
      FoldKeys(outcomes, file, k - 1);
      var prev := Fold(outcomes, file, k - 1);
      if prev.Some? && outcomes[k - 1].Store? {
        var data := Fold(outcomes, file, k).value.data;
        assert data.Keys == prev.value.data.Keys + {outcomes[k - 1].id};
      }
    }
  }

  /** Every record fits the earlier datasets. */
  ghost predicate AllFit(data: map<string, FoodRecord>, existing: map<string, FoodRecord>, policy: Policy) {
    forall id :: id in data ==> StoredFits(id, data[id], existing, policy)
  }

  /** The records after `k` rows each fit the earlier datasets. */
  lemma {:induction false} FoldRecords(outcomes: seq<RowOutcome>, file: string, existing: map<string, FoodRecord>,
                                       policy: Policy, k: nat)
    requires k <= |outcomes|
    requires forall j :: 0 <= j < k ==> Fits(outcomes[j], existing, policy)
    ensures Fold(outcomes, file, k).Some? ==> AllFit(Fold(outcomes, file, k).value.data, existing, policy)
    decreases k
  {
    if k > 0 {
      FoldRecords(outcomes, file, existing, policy, k - 1);
      var prev := Fold(outcomes, file, k - 1);
      var o := outcomes[k - 1];
      if prev.Some? && Fold(outcomes, file, k).Some? {
        var data := Fold(outcomes, file, k).value.data;
        if o.Store? {
          assert Fits(o, existing, policy);
          assert StoredFits(o.id, o.record, existing, policy);
          assert data == prev.value.data[o.id := o.record];
          forall id | id in data ensures StoredFits(id, data[id], existing, policy) {
            if id != o.id {
              assert data[id] == prev.value.data[id];
            }
          }
        } else {
          assert data == prev.value.data;
        }
      }
    }
  }

  /** `process_single_dataset` fails exactly when the file is missing or one
      of its rows has no `description`. */
  lemma DatasetFails(config: DatasetConfig, existing: map<string, FoodRecord>, n: nat, policy: Policy,
                     files: Files, parse: string -> Option<real>)
    ensures ProcessDataset(config, existing, n, policy, files, parse).None? <==>
      config.path !in files || exists j :: 0 <= j < |files[config.path]| && "description" !in files[config.path][j]
  {
    if config.path in files {
      var rows := files[config.path];
      var outcomes := Outcomes(Classifier(config, existing, n, policy, parse), rows);
      FoldFails(outcomes, config.path, |rows|);
      assert forall j :: 0 <= j < |rows| ==> (outcomes[j].NoDescription? <==> "description" !in rows[j]);
    }
  }

  /** Row `j` of a dataset fits the earlier datasets. */
  lemma OutcomeAtFits(config: DatasetConfig, existing: map<string, FoodRecord>, n: nat, policy: Policy,
                      parse: string -> Option<real>, rows: seq<Row>, j: nat)
    requires j < |rows|
    ensures Fits(Outcomes(Classifier(config, existing, n, policy, parse), rows)[j], existing, policy)
  {
    RowOutcomeFits(config, existing, n, policy, parse, rows[j], j + 1);
  }

  /** Every row outcome of a dataset fits the earlier datasets. */
  lemma OutcomesFit(config: DatasetConfig, existing: map<string, FoodRecord>, n: nat, policy: Policy,
                    parse: string -> Option<real>, rows: seq<Row>)
    ensures forall j :: 0 <= j < |rows| ==> Fits(Outcomes(Classifier(config, existing, n, policy, parse), rows)[j], existing, policy)
  {
    forall j | 0 <= j < |rows| ensures Fits(Outcomes(Classifier(config, existing, n, policy, parse), rows)[j], existing, policy) {
      OutcomeAtFits(config, existing, n, policy, parse, rows, j);
    }
  }

  /** The counters `process_single_dataset` reports: its file, at most one
      count per row, `total == added + skipped + merged`, one conflict entry
      per skipped row, and no skips or merges unless the strategy asks for them
      and an earlier dataset exists. */
  lemma DatasetStats(config: DatasetConfig, existing: map<string, FoodRecord>, n: nat, policy: Policy,
                     files: Files, parse: string -> Option<real>)
    ensures ProcessDataset(config, existing, n, policy, files, parse).Some? ==>
      var s := ProcessDataset(config, existing, n, policy, files, parse).value.stats;
      && s.file == config.path && s.total <= |files[config.path]| && Balanced(s)
      && (!policy.Skip? || existing == map[] ==> s.skipped == 0)
      && (!policy.Merge? || existing == map[] ==> s.merged == 0)
  {
    if config.path in files {
      var rows := files[config.path];
      OutcomesFit(config, existing, n, policy, parse, rows);
      FoldStats(Outcomes(Classifier(config, existing, n, policy, parse), rows), config.path, existing, policy, |rows|);
    }
  }

  /** The records `process_single_dataset` returns all fit the earlier
      datasets. */
  lemma DatasetRecordsFit(config: DatasetConfig, existing: map<string, FoodRecord>, n: nat, policy: Policy,
                          files: Files, parse: string -> Option<real>)
    ensures ProcessDataset(config, existing, n, policy, files, parse).Some? ==>
      AllFit(ProcessDataset(config, existing, n, policy, files, parse).value.data, existing, policy)
  {
    if config.path in files {
      var rows := files[config.path];
      OutcomesFit(config, existing, n, policy, parse, rows);
      FoldRecords(Outcomes(Classifier(config, existing, n, policy, parse), rows), config.path, existing, policy, |rows|);
    }
  }

  /** What fitting records give: identifier-shaped keys, each record under its
      own identifier when the earlier records were, no earlier identifier
      reused under the skip and suffix strategies, and under the merge
      strategy a record under an earlier identifier is merged from it. */
  lemma FitConsequences(data: map<string, FoodRecord>, existing: map<string, FoodRecord>, policy: Policy)
    requires AllFit(data, existing, policy)
    ensures KeysAreSlugs(data)
    ensures IdsMatchKeys(existing) ==> IdsMatchKeys(data)
    ensures policy.Skip? || policy.Suffix? ==> data.Keys !! existing.Keys
    ensures policy.Merge? ==> forall id :: id in data && id in existing ==> MergedFrom(data[id], existing[id])
  {
    forall id | id in data ensures IsSlug(id) && (IdsMatchKeys(existing) ==> data[id].id == id) {
      assert StoredFits(id, data[id], existing, policy);
      if policy.Merge? && id in existing {
        var incoming :| data[id] == MergeRecords(existing[id], incoming);
      }
    }
  }

  /** The enabled entries of `INPUT_FILES`, in order. */
  function Enabled(configs: seq<DatasetConfig>): (r: seq<DatasetConfig>)
    ensures |r| <= |configs|
    ensures forall i :: 0 <= i < |r| ==> r[i].enabled && r[i] in configs
    ensures forall c :: c in configs && c.enabled ==> c in r
    ensures |configs| == 1 ==> r == (if configs[0].enabled then configs else [])
  {
    if configs == [] then []
    else (if configs[0].enabled then [configs[0]] else []) + Enabled(configs[1..])
  }

  /** The filter keeps the order of the list: the enabled entries of a
      concatenation are those of the first part followed by those of the second. */
  lemma {:induction false} EnabledAppend(a: seq<DatasetConfig>, b: seq<DatasetConfig>)
    ensures Enabled(a + b) == Enabled(a) + Enabled(b)
    decreases |a|
  {
    if a == [] {
      assert a + b == b;
    } else {
      assert (a + b)[0] == a[0];
      assert (a + b)[1..] == a[1..] + b;
      EnabledAppend(a[1..], b);
    }
  }

  /** What the accumulation loop does with one dataset: a dataset that failed
      is passed over; otherwise its statistics are appended and its records
      folded in with `update`, so its entries replace equal keys. */
  function Absorb(allData: map<string, FoodRecord>, datasetStats: seq<Stats>, result: Option<Progress>)
    : (r: (map<string, FoodRecord>, seq<Stats>))
    ensures result.None? ==> r == (allData, datasetStats)
    ensures result.Some? ==> r.0.Keys == allData.Keys + result.value.data.Keys
    ensures result.Some? ==> forall id :: id in result.value.data ==> r.0[id] == result.value.data[id]
    ensures result.Some? ==> forall id :: id in allData && id !in result.value.data ==> r.0[id] == allData[id]
    ensures result.Some? ==> r.1 == datasetStats + [result.value.stats]
  {
    match result
    case None => (allData, datasetStats)
    case Some(p) => (allData + p.data, datasetStats + [p.stats])
  }

  /** How one dataset is processed: its entry, the records of the earlier
      datasets and its number (from 1). */
  type DatasetProcessor = (DatasetConfig, map<string, FoodRecord>, nat) -> Option<Progress>

  /** `process_single_dataset` with the strategy, the files and the number
      parser fixed. */
  function Converter(policy: Policy, files: Files, parse: string -> Option<real>): DatasetProcessor {
    (config: DatasetConfig, existing: map<string, FoodRecord>, n: nat) => ProcessDataset(config, existing, n, policy, files, parse)
  }

  /** Applying the converter is processing the dataset. */
  lemma ConverterApplies(policy: Policy, files: Files, parse: string -> Option<real>,
                         config: DatasetConfig, existing: map<string, FoodRecord>, n: nat)
    ensures Converter(policy, files, parse)(config, existing, n) == ProcessDataset(config, existing, n, policy, files, parse)
  {
  }

  /** The accumulation loop of `process_multiple_datasets` over the first `k`
      enabled datasets (numbered from 1), each processed against the records of
      the datasets before it. */
  function Accumulate(configs: seq<DatasetConfig>, process: DatasetProcessor, k: nat)
    : (r: (map<string, FoodRecord>, seq<Stats>))
    requires k <= |configs|
    ensures |r.1| <= k
    decreases k
  {
    if k == 0 then (map[], [])
    else
      var (allData, datasetStats) := Accumulate(configs, process, k - 1);
      Absorb(allData, datasetStats, process(configs[k - 1], allData, k))
  }

  /** One more dataset is one more step of the loop. */
  lemma AccumulateStep(configs: seq<DatasetConfig>, process: DatasetProcessor, k: nat)
    requires k < |configs|
    ensures Accumulate(configs, process, k + 1)
      == Absorb(Accumulate(configs, process, k).0, Accumulate(configs, process, k).1,
                process(configs[k], Accumulate(configs, process, k).0, k + 1))
  {
  }

  /** The body of the accumulation loop after the dataset is processed. */
  method AddDataset(allData: map<string, FoodRecord>, datasetStats: seq<Stats>, result: Option<Progress>)
    returns (newData: map<string, FoodRecord>, newStats: seq<Stats>)
    ensures (newData, newStats) == Absorb(allData, datasetStats, result)
  {
    newData, newStats := allData, datasetStats;
    if result.Some? {
      newStats := newStats + [result.value.stats];
      newData := newData + result.value.data;
    }
  }

  /** `process_multiple_datasets` up to writing the output: the combined records
      and the statistics of the datasets that were processed. */
  method ProcessMultipleDatasets(inputFiles: seq<DatasetConfig>, policy: Policy, files: Files,
                                 parse: string -> Option<real>)
    returns (allData: map<string, FoodRecord>, datasetStats: seq<Stats>)
    ensures (allData, datasetStats) == Accumulate(Enabled(inputFiles), Converter(policy, files, parse), |Enabled(inputFiles)|)
  {
    var inputConfigs := Enabled(inputFiles);
    allData := map[];
    datasetStats := [];
    var idx := 0;
    while idx < |inputConfigs|
      invariant 0 <= idx <= |inputConfigs|
      invariant (allData, datasetStats) == Accumulate(inputConfigs, Converter(policy, files, parse), idx)
    {
      var result := ProcessSingleDataset(inputConfigs[idx], allData, idx + 1, policy, files, parse);
      ConverterApplies(policy, files, parse, inputConfigs[idx], allData, idx + 1);
      AccumulateStep(inputConfigs, Converter(policy, files, parse), idx);
      allData, datasetStats := AddDataset(allData, datasetStats, result);
      idx := idx + 1;
    }
  }

  /** What a processed dataset promises: its own file in the counters, counters
      that add up, and records that fit the earlier datasets. */
  ghost predicate DatasetFits(result: Option<Progress>, config: DatasetConfig, existing: map<string, FoodRecord>,
                              policy: Policy) {
    result.Some? ==>
      result.value.stats.file == config.path && Balanced(result.value.stats) && AllFit(result.value.data, existing, policy)
  }

  /** Every dataset the processor handles fits. */
  ghost predicate ProcessorFits(process: DatasetProcessor, policy: Policy) {
    forall config, existing, n :: DatasetFits(process(config, existing, n), config, existing, policy)
  }

  /** `process_single_dataset` keeps the promise. */
  lemma ConverterFits(policy: Policy, files: Files, parse: string -> Option<real>)
    ensures ProcessorFits(Converter(policy, files, parse), policy)
  {
    forall config, existing, n ensures DatasetFits(Converter(policy, files, parse)(config, existing, n), config, existing, policy) {
      DatasetStats(config, existing, n, policy, files, parse);
      DatasetRecordsFit(config, existing, n, policy, files, parse);
    }
  }

  /** Every entry of the statistics adds up. */
  predicate AllBalanced(datasetStats: seq<Stats>) {
    forall i :: 0 <= i < |datasetStats| ==> Balanced(datasetStats[i])
  }

  /** Folding in a dataset whose counters add up and whose records are under
      their own identifier-shaped keys keeps both properties of the whole. */
  lemma AbsorbKeeps(allData: map<string, FoodRecord>, datasetStats: seq<Stats>, result: Option<Progress>)
    requires AllBalanced(datasetStats) && KeysAreSlugs(allData) && IdsMatchKeys(allData)
    requires result.Some? ==>
      Balanced(result.value.stats) && KeysAreSlugs(result.value.data) && IdsMatchKeys(result.value.data)
    ensures var (newData, newStats) := Absorb(allData, datasetStats, result);
      AllBalanced(newStats) && KeysAreSlugs(newData) && IdsMatchKeys(newData)
  {
    var (newData, newStats) := Absorb(allData, datasetStats, result);
    if result.Some? {
      forall id | id in newData ensures IsSlug(id) && newData[id].id == id {
        if id in result.value.data {
          assert newData[id] == result.value.data[id];
        } else {
          assert newData[id] == allData[id];
        }
      }
    }
  }

  /** What the accumulation keeps after `k` datasets: at most one statistics
      entry per dataset, each balanced, identifier-shaped keys, and every
      record under its own identifier. */
  lemma {:induction false} AccumulateInvariant(configs: seq<DatasetConfig>, process: DatasetProcessor,
                                               policy: Policy, k: nat)
    requires k <= |configs| && ProcessorFits(process, policy)
    ensures var (allData, datasetStats) := Accumulate(configs, process, k);
      |datasetStats| <= k && AllBalanced(datasetStats) && KeysAreSlugs(allData) && IdsMatchKeys(allData)
    decreases k
  {
    if k > 0 {
      AccumulateInvariant(configs, process, policy, k - 1);
      var (allData, datasetStats) := Accumulate(configs, process, k - 1);
      var result := process(configs[k - 1], allData, k);
      assert DatasetFits(result, configs[k - 1], allData, policy);
      if result.Some? {
        FitConsequences(result.value.data, allData, policy);
      }
      AbsorbKeeps(allData, datasetStats, result);
    }
  }

  /** Every record of `before` is in `after`, unchanged. */
  predicate Persists(before: map<string, FoodRecord>, after: map<string, FoodRecord>) {
    forall id :: id in before ==> id in after && after[id] == before[id]
  }

  /** What one more dataset does to the records of the earlier ones: no key is
      lost; under the skip and suffix strategies no record is touched; under
      the merge strategy a record is kept or merged into. Only the overwrite
      strategy (and an unrecognised one) replaces earlier records. */
  lemma EarlierRecords(configs: seq<DatasetConfig>, process: DatasetProcessor, policy: Policy, k: nat)
    requires k < |configs| && ProcessorFits(process, policy)
    ensures var before := Accumulate(configs, process, k).0;
      var after := Accumulate(configs, process, k + 1).0;
      && before.Keys <= after.Keys
      && (policy.Skip? || policy.Suffix? ==> Persists(before, after))
      && (policy.Merge? ==> forall id :: id in before ==> after[id] == before[id] || MergedFrom(after[id], before[id]))
  {
    var before := Accumulate(configs, process, k).0;
    var result := process(configs[k], before, k + 1);
    assert DatasetFits(result, configs[k], before, policy);
    if result.Some? {
      FitConsequences(result.value.data, before, policy);
    }
  }

  /** Under the skip and suffix strategies a record, once stored, stays as it
      is through every later dataset. */
  lemma {:induction false} RecordsPersist(configs: seq<DatasetConfig>, process: DatasetProcessor, policy: Policy,
                                          j: nat, k: nat)
    requires j <= k <= |configs| && ProcessorFits(process, policy) && (policy.Skip? || policy.Suffix?)
    ensures Persists(Accumulate(configs, process, j).0, Accumulate(configs, process, k).0)
    decreases k
  {
    if j < k {
      RecordsPersist(configs, process, policy, j, k - 1);
      EarlierRecords(configs, process, policy, k - 1);
    }
  }

  /** The outcome of `process_multiple_datasets`: at most one statistics entry
      per enabled dataset, each adding up; identifier-shaped keys, each record
      under its own identifier; and under the skip and suffix strategies the
      records of a dataset survive every later dataset unchanged. */
  lemma MultipleDatasets(inputFiles: seq<DatasetConfig>, policy: Policy, files: Files,
                         parse: string -> Option<real>, j: nat)
    requires j <= |Enabled(inputFiles)|
    ensures var configs := Enabled(inputFiles);
      var (allData, datasetStats) := Accumulate(configs, Converter(policy, files, parse), |configs|);
      && |datasetStats| <= |configs| && AllBalanced(datasetStats) && KeysAreSlugs(allData) && IdsMatchKeys(allData)
      && (policy.Skip? || policy.Suffix? ==> Persists(Accumulate(configs, Converter(policy, files, parse), j).0, allData))
  {
    var configs := Enabled(inputFiles);
    ConverterFits(policy, files, parse);
    AccumulateInvariant(configs, Converter(policy, files, parse), policy, |configs|);
    if policy.Skip? || policy.Suffix? {
      RecordsPersist(configs, Converter(policy, files, parse), policy, j, |configs|);
    }
  }
}
