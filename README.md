# Food table converters, modelled in Dafny

This project models the row-normalisation pipeline of two scripts of the
nutri-agil data warehouse:

- `food_converter.py` reads one table of foods. It turns every row into one
  output record. The record identifier is made unique with the suffixes
  `base`, `base_1`, `base_2`, ...
- `multi_dataset_converter.py` reads several tables in turn. An identifier
  that clashes with an earlier table is handled by the configured strategy:
  `suffix`, `skip`, `overwrite` or `merge`. The per-table results are folded
  into one collection keyed by identifier.

Both scripts build the same kind of record:

- an identifier made from the food name (lower-cased, special characters
  removed, blanks and underscore runs collapsed, `food_item` when nothing is
  left);
- eight headline nutrient cells, each `NULL` or a number;
- a sparse nutrient map holding only the values that parse;
- a category chosen by an ordered list of keyword rules;
- a portion-unit entry from a constant table, where rice has an entry of its
  own.

Modules:

| module | file | models |
|---|---|---|
| `Common` | common.dfy | `Option`, decimal rendering of naturals, Python's `in` on strings |
| `Text` | text.dfy | character classes `\s` and `\w`, `lower`/`upper`, `strip`, run collapsing |
| `Slug` | slug.dfy | `generate_id_from_name` and the identifier shape it guarantees |
| `Probe` | probe.dfy | the "first free candidate" search shared by both suffix loops, and why it ends |
| `Categories` | categories.dfy | `categorize_food` |
| `Units` | units.dfy | `UNIT_CONVERSIONS_DATABASE` and `get_unit_config` |
| `Records` | records.dfy | `safe_float`, `format_value`, and the record body both scripts build |
| `RecordMerge` | merge.dfy | `merge_nutritional_data` |
| `Conflicts` | conflicts.dfy | `resolve_id_conflict` |
| `FoodConverter` | food_converter.dfy | `generate_unique_id` and the row loop of `convert_food_data` |
| `MultiDataset` | multi_dataset.dfy | `create_output_row`, `process_single_dataset` and the loop of `process_multiple_datasets` |

How the model is built:

- The helpers the two scripts share are defined once. They are
  `UNIT_CONVERSIONS_DATABASE`, `safe_float`, `format_value`,
  `categorize_food`, `get_unit_config` and the name cleaning. The table
  cites the lines in `multi_dataset_converter.py`; the copies in
  `food_converter.py` (lines 24-302 and 522-623) are the same code.
- The loops of the scripts are methods with loop invariants. Each method is
  proved equal to a specification function, and the lemmas are stated about
  those functions:
  - `generate_unique_id`, `resolve_id_conflict` and the merge loops;
  - the row loop of `process_single_dataset`;
  - the dataset loop of `process_multiple_datasets`;
  - the row loop of `convert_food_data`.
- The caller's `used_ids` set, which `generate_unique_id` grows in place, is
  a class (`FoodConverter.UsedIds`) whose field the method modifies.
- A table is a sequence of rows. A row maps column names to cell text. A
  missing input file is a missing entry in `Files` (or `None` for the
  single-file converter).
- The parse of `float()` is a parameter `parse: string -> Option<real>`.
  `None` stands for the `ValueError` branch.
- Module-level settings are parameters. These are `CONFLICT_RESOLUTION` (the
  `Policy` type), the list `INPUT_FILES` and `DEFAULT_SOURCE`.

Behaviour of the code that the model keeps on purpose:

- Identifiers are checked only against the records of earlier datasets
  (`existing_data`), never against earlier rows of the same dataset. A
  later row with the same identifier replaces the earlier one in that
  dataset's results and is still counted.
- The `overwritten` action is counted under `added`.
- A headline cell that is `NULL` in the stored record stays `NULL` after a
  merge, even when the incoming record has a value.
- `convert_food_data` does not skip blank names. `process_single_dataset`
  skips them without counting them.
- A row without a `description` stops the whole single-file conversion. In
  the multi-dataset converter it abandons only that dataset: its records
  and counters are lost, and the next dataset is processed.

## Model

| member | source | states |
|---|---|---|
| Slug.RemoveSpecialChars | data-warehouse/script/multi_dataset_converter.py:567 | a character is kept exactly when it occurs in the input and is a word character or a blank; a name of word characters only is unchanged |
| Slug.RemoveSpecialCharsAppend | data-warehouse/script/multi_dataset_converter.py:567 | the pass works character by character: on a concatenation it is the concatenation of the two passes, so the kept characters stay in their order |
| Text.FilterAppend | data-warehouse/script/multi_dataset_converter.py:567 | dropping characters one by one: the filter of a concatenation is the concatenation of the filters |
| Text.FilterChars | data-warehouse/script/multi_dataset_converter.py:567 | the filter keeps exactly the characters of the input that pass the test |
| Slug.GenerateIdFromName | data-warehouse/script/multi_dataset_converter.py:565-572 | the identifier is never empty, has only lower-case word characters, no doubled underscore and no underscore at either end; it is `food_item` exactly when the cleaned name is empty, otherwise the cleaned name |
| Slug.Cleaned | data-warehouse/script/multi_dataset_converter.py:566-570 | lower-casing, removing special characters, collapsing blanks and underscore runs and stripping underscores leave an empty text or a well-shaped identifier |
| Slug.CleanedFromName | data-warehouse/script/multi_dataset_converter.py:566-570 | cleaning adds no character but `_`: every other character of the result is a character of the lower-cased name |
| Slug.SlugIsFixedPoint | data-warehouse/script/multi_dataset_converter.py:565-572 | a well-shaped identifier is its own identifier |
| Slug.GenerateIdIdempotent | data-warehouse/script/multi_dataset_converter.py:565-572 | cleaning an identifier again changes nothing |
| Slug.JoinIsSlug | data-warehouse/script/food_converter.py:514 | joining two well-shaped identifiers with `_` gives a well-shaped identifier, so the numbered forms keep the shape |
| Categories.FirstMatch | data-warehouse/script/multi_dataset_converter.py:608-610 | the index of the first rule with a keyword in the text, or none when no rule has one |
| Categories.Label | data-warehouse/script/multi_dataset_converter.py:608-612 | the first matching rule's label; the fallback when no rule matches; always a rule label or the fallback |
| Categories.Categorize | data-warehouse/script/multi_dataset_converter.py:587-612 | the label of the first rule, in declaration order, with a keyword in the lower-cased name; `Alimentos` when none matches; so always one of the 14 labels or the default |
| Categories.RiceIsCereal | data-warehouse/script/multi_dataset_converter.py:592 | any name whose lower-case form mentions `arroz` is `Cereais` |
| Categories.WatermelonIsFruit | data-warehouse/script/food_converter.py:568-579 | `melancia` is `Frutas`: no earlier rule matches, and `Frutas` comes before `Açúcares`, whose keyword `mel` also occurs in it |
| Units.TableWellFormed | data-warehouse/script/multi_dataset_converter.py:58-187 | every table entry offers its default unit, has a conversion exactly for each offered unit, and every conversion is positive |
| Units.EntryOf | data-warehouse/script/multi_dataset_converter.py:618-630 | the display-category map never yields the rice entry, which only the name test reaches, and a category it maps to a non-default entry is that entry's own label, so distinct labels get distinct entries |
| Units.UnmappedCategoryIsDefault | data-warehouse/script/multi_dataset_converter.py:629-630 | a category that is none of the 14 rule labels, such as `Alimentos` or an override of the caller's own, gets the `default` entry |
| Units.CategoryLabelsAreMapped | data-warehouse/script/multi_dataset_converter.py:618-624 | each of the 14 rule labels has an entry other than `default`; the default label `Alimentos` falls back to `default` |
| Units.LabelEntriesDistinct | data-warehouse/script/multi_dataset_converter.py:618-624 | no two of the 14 rule labels share an entry |
| Units.GetUnitConfig | data-warehouse/script/multi_dataset_converter.py:614-630 | a name mentioning `arroz` gets the rice entry whatever the category; otherwise the category's entry, with `default` for unmapped categories; the result is well formed |
| Units.RiceOverridesCategory | data-warehouse/script/multi_dataset_converter.py:626-627 | two categories, a forced one included, give the same entry for a rice name, and that entry offers a 120 g ladle |
| Records.Field | data-warehouse/script/multi_dataset_converter.py:385 | `row.get(column)`: a value exactly when the column is present, and then its text |
| Records.SafeFloat | data-warehouse/script/multi_dataset_converter.py:574-581 | a value exactly when the cell is present, non-empty, not a null marker, and parses; the value is the parse |
| Records.NullMarkers | data-warehouse/script/multi_dataset_converter.py:576 | the texts refused before parsing are exactly the empty text and `NA`/`TR` in any mix of cases |
| Records.FormatValue | data-warehouse/script/multi_dataset_converter.py:583-585 | `NULL` exactly when there is no value, otherwise the value |
| Records.FormatValueRoundTrip | data-warehouse/script/multi_dataset_converter.py:464-468 | reading a formatted cell back gives the original value or none; this stands in for `float(str(x)) == x`, which the merge relies on when it reads a headline cell back as a number |
| Records.HeadlineTablesAgree | data-warehouse/script/multi_dataset_converter.py:385-446 | the eight headline columns are read from the same source columns as the matching nutrient keys |
| Records.ExtractNutrients | data-warehouse/script/multi_dataset_converter.py:385-425 | the nutrient map has a key exactly for the nutrients whose cell `safe_float` accepts, holding that value, and no other key |
| Records.RenamedNutrients | data-warehouse/script/multi_dataset_converter.py:387-388 | `fat` is read from `lipids_g` and `carbs` from `carbohydrate_g` |
| Records.ExtractHeadline | data-warehouse/script/multi_dataset_converter.py:435-442 | exactly the eight headline columns; each cell is `NULL` exactly when `safe_float` of its column gives no value, and otherwise holds that value |
| Records.BuildRecord | data-warehouse/script/multi_dataset_converter.py:379-451 | the record carries the given identifier, name, category, source and notes, portion 100 and page `1`; its headline and nutrient map are the extracted ones, so each cell holds `safe_float` of its column, the headline agrees with the nutrient map and the nutrient keys are the accepted cells; its unit entry is `get_unit_config` of the name and category, well formed, and the rice entry for rice names |
| Records.ChooseCategory | data-warehouse/script/multi_dataset_converter.py:428 | a non-empty override wins; otherwise the keyword rules decide |
| Records.TrimDescription | data-warehouse/script/multi_dataset_converter.py:292 | the name is no longer than the description and neither starts nor ends with a quote; a description with no blank and no quote at either end is its own name |
| Records.TrimDescriptionIsBlock | data-warehouse/script/multi_dataset_converter.py:292 | the name is one contiguous block of the description, starting right after the leading whitespace and the quotes that follow it, and every character dropped around it is whitespace or a quote |
| Text.StripStartIsFirstOutside | data-warehouse/script/multi_dataset_converter.py:292 | where a strip begins: every character before it is stripped and the one at it is not |
| RecordMerge.Mean | data-warehouse/script/multi_dataset_converter.py:481 | the mean lies between the two values, at equal distance from both |
| RecordMerge.Round2 | data-warehouse/script/multi_dataset_converter.py:469 | the result is a whole number of hundredths within 0.005 of the value; at a tie it is the even hundredth |
| RecordMerge.Round2Nearest | data-warehouse/script/multi_dataset_converter.py:469 | no hundredth is nearer to the value than the rounded one |
| RecordMerge.Round2Hundredths | data-warehouse/script/multi_dataset_converter.py:469 | a whole number of hundredths is unchanged by rounding |
| RecordMerge.CellOf | data-warehouse/script/multi_dataset_converter.py:464-465 | a missing headline field reads as `NULL` |
| RecordMerge.MergeHeadline | data-warehouse/script/multi_dataset_converter.py:457-469 | same fields as the stored record; a cell is `NULL` after the merge exactly when it was before; a cell changes only when both sides are numbers, and then it is their mean rounded to hundredths, within 0.005 of the mean |
| RecordMerge.MergeNutrition | data-warehouse/script/multi_dataset_converter.py:476-485 | the keys are the union; shared keys take the mean; one-sided keys are copied |
| RecordMerge.MergeNutritionCommutes | data-warehouse/script/multi_dataset_converter.py:476-485 | uniting the nutrient maps does not depend on which record is the stored one |
| RecordMerge.MergeNutritionIdentity | data-warehouse/script/multi_dataset_converter.py:476-485 | uniting with an empty map or with an equal map changes nothing |
| RecordMerge.MergeRecords | data-warehouse/script/multi_dataset_converter.py:453-494 | headline and nutrients merged as above; notes are the stored notes, ` \| Merged with: ` and the new notes; every other field is the stored record's |
| RecordMerge.AverageHeadline | data-warehouse/script/multi_dataset_converter.py:459-469 | the headline loop computes the merged headline |
| RecordMerge.UniteNutrients | data-warehouse/script/multi_dataset_converter.py:476-485 | the nutrient loop computes the merged nutrient map |
| RecordMerge.MergeNutritionalData | data-warehouse/script/multi_dataset_converter.py:453-494 | the procedure computes the merged record |
| RecordMerge.NullHeadlineStaysNull | data-warehouse/script/multi_dataset_converter.py:464-469 | a `NULL` cell of the stored record stays `NULL` whatever the incoming record holds |
| RecordMerge.MergeNutritionExample | data-warehouse/script/multi_dataset_converter.py:479-485 | a worked merge: a shared key is averaged, one-sided keys are kept |
| Conflicts.DsCandidateInjective | data-warehouse/script/multi_dataset_converter.py:370-373 | `base_ds{n}`, `base_ds{n}_2`, `base_ds{n}_3`, ... are pairwise different |
| Conflicts.DsCandidateIsSlug | data-warehouse/script/multi_dataset_converter.py:370-373 | each suffixed identifier keeps the identifier shape |
| Conflicts.FirstFreeAttemptUnique | data-warehouse/script/multi_dataset_converter.py:372-374 | there is at most one first free attempt |
| Conflicts.SuffixId | data-warehouse/script/multi_dataset_converter.py:368-375 | the suffix identifier is free; it is the first free attempt; it is `base_ds{n}` when that is free |
| Conflicts.Resolve | data-warehouse/script/multi_dataset_converter.py:349-377 | a free base gives `(base, added)` under every strategy; otherwise skip, overwrite and merge keep the base with their own action, suffix gives a free identifier with `added`, and an unknown strategy gives `(base, added)`; each action holds exactly in its case |
| Conflicts.AttemptsTakenBound | data-warehouse/script/multi_dataset_converter.py:372-374 | no more attempts than earlier identifiers can be taken, so the probing loop ends |
| Conflicts.ResolveIdConflict | data-warehouse/script/multi_dataset_converter.py:349-377 | the procedure, with its probing loop, returns what `Resolve` specifies |
| Conflicts.SuffixExample | data-warehouse/script/multi_dataset_converter.py:370-374 | `arroz` in dataset 2 becomes `arroz_ds2`, and `arroz_ds2_2` when that is taken too |
| FoodConverter.Candidate | data-warehouse/script/food_converter.py:511-514 | attempt 0 is the base; every attempt extends the base |
| FoodConverter.CandidateInjective | data-warehouse/script/food_converter.py:511-514 | `base`, `base_1`, `base_2`, ... are pairwise different |
| FoodConverter.CandidateIsSlug | data-warehouse/script/food_converter.py:511-514 | each numbered identifier keeps the identifier shape |
| FoodConverter.UniqueId | data-warehouse/script/food_converter.py:495-515 | the identifier is not in use, has the identifier shape, is the first free attempt, and is the base when that is free |
| FoodConverter.FirstFreeUnique | data-warehouse/script/food_converter.py:511-515 | any first free attempt is the one `UniqueId` picks |
| FoodConverter.CollidingNamesNumbered | data-warehouse/script/food_converter.py:509-515 | when the base and its first `n` numbered forms are in use, the next name with that base gets number `n`; so colliding names get `base`, `base_1`, `base_2`, ... in order |
| FoodConverter.AttemptsTakenBound | data-warehouse/script/food_converter.py:513-515 | no more attempts than used identifiers can be taken, so the loop ends |
| FoodConverter.UsedIds.constructor | data-warehouse/script/food_converter.py:327 | the set of used identifiers starts empty |
| FoodConverter.GenerateUniqueId | data-warehouse/script/food_converter.py:483-520 | the returned identifier was not in use before; afterwards the set is the old set plus exactly that identifier; the identifier is the one `UniqueId` specifies |
| FoodConverter.FirstFreeId | data-warehouse/script/food_converter.py:509-515 | the duplicate loop ends on the identifier `UniqueId` specifies: the base, or the first numbered form not in use |
| FoodConverter.ConvertRow | data-warehouse/script/food_converter.py:333-446 | the record's identifier is the unique identifier of its cleaned name and is not in use; its name is the trimmed description; its category comes from the rules; its source and notes are the fixed ones; its headline and nutrient map are the ones extracted from the row, and they agree; its unit entry is `get_unit_config` of its name and category; portion 100 and page `1` |
| FoodConverter.IdsAppend | data-warehouse/script/food_converter.py:446 | appending a record adds exactly its identifier to the emitted identifiers |
| FoodConverter.ConvertPrefix | data-warehouse/script/food_converter.py:330-446 | after `k` rows: one record per row when every row has a `description`, otherwise the run stops at the first row without one |
| FoodConverter.BuilderIds | data-warehouse/script/food_converter.py:336 | the record built for a row never reuses an identifier already in use, and its identifier has the identifier shape |
| FoodConverter.ConvertedIdsDistinct | data-warehouse/script/food_converter.py:327-446 | the emitted identifiers are pairwise distinct |
| FoodConverter.PrefixStable | data-warehouse/script/food_converter.py:446 | converting more rows never changes a record already emitted |
| FoodConverter.ConvertedRecord | data-warehouse/script/food_converter.py:330-446 | record `i` is built from row `i`, numbered `i + 1`, against the identifiers emitted before it |
| FoodConverter.Convert | data-warehouse/script/food_converter.py:308-446 | a missing file is reported as such; the run completes exactly when every row has a `description`, with one record per row, blank names included; otherwise it stops at the first row without one |
| FoodConverter.ConvertFacts | data-warehouse/script/food_converter.py:308-446 | the records of a completed run have pairwise distinct, well-shaped identifiers |
| FoodConverter.ConvertedRowAt | data-warehouse/script/food_converter.py:330-446 | record `i` of a completed run is the row conversion of row `i` |
| FoodConverter.ConvertFoodData | data-warehouse/script/food_converter.py:308-446 | the row loop computes `Convert`; its invariant keeps the used-identifier set equal to the identifiers emitted so far |
| MultiDataset.CreateOutputRow | data-warehouse/script/multi_dataset_converter.py:379-451 | the record carries the given identifier, name and source, the override-or-rules category, portion 100, page `1` and the `Dataset n, Entry k` notes; its headline and nutrient map are the ones extracted from the row, and they agree; its unit entry is `get_unit_config` of the name and the chosen category, and well formed |
| MultiDataset.Tally | data-warehouse/script/multi_dataset_converter.py:297-317 | a row with a name adds one to the total and one to exactly one of added, skipped and merged; overwritten and added both count as added; a skipped row adds its conflict entry |
| MultiDataset.Outcomes | data-warehouse/script/multi_dataset_converter.py:290 | one outcome per row, in order, each given by the dataset's classifier with the row numbered from 1 (`Classifier` fixes it to `RowOutcomeOf`) |
| MultiDataset.ClassifyRow | data-warehouse/script/multi_dataset_converter.py:292-295 | reading and trimming the name gives the row's outcome |
| MultiDataset.ClassifyNamedRow | data-warehouse/script/multi_dataset_converter.py:299-337 | identifier generation, conflict resolution, record building and the optional merge give the named row's outcome |
| MultiDataset.CountRow | data-warehouse/script/multi_dataset_converter.py:297-337 | counting and storing one outcome is one step of the row fold |
| MultiDataset.ProcessSingleDataset | data-warehouse/script/multi_dataset_converter.py:266-347 | the procedure computes `ProcessDataset`; `existing_data` is only read |
| MultiDataset.RowOutcomeFits | data-warehouse/script/multi_dataset_converter.py:299-337 | a conflict entry happens only under skip, against a non-empty earlier collection; a stored identifier is well shaped and, under skip and suffix, new; under merge a clashing record is the earlier record merged with a new one (which one is stated by `MultiDataset.NamedOutcomeRecord`); any other record sits under its own identifier; the action is `merged` exactly when merge met an earlier identifier |
| MultiDataset.RowOutcomeOf | data-warehouse/script/multi_dataset_converter.py:292-337 | a row stops the dataset exactly when it has no `description`; it is passed over exactly when its trimmed name is empty; it is a conflict exactly under skip when its identifier is already taken |
| MultiDataset.NamedOutcome | data-warehouse/script/multi_dataset_converter.py:299-337 | a row with a name is a conflict or a stored record; a conflict exactly under skip when its identifier is already taken |
| MultiDataset.NamedOutcomeRecord | data-warehouse/script/multi_dataset_converter.py:299-337 | a stored record sits under the resolved identifier and is the row's own `create_output_row` record, merged into the earlier record exactly when the action is `merged` |
| MultiDataset.Apply | data-warehouse/script/multi_dataset_converter.py:297-337 | a row without `description` abandons the dataset; a blank row changes nothing; a conflict keeps the records and is counted as a skip; a stored outcome adds or replaces exactly its own identifier's record; every counted row adds one to the total |
| MultiDataset.Fold | data-warehouse/script/multi_dataset_converter.py:290-337 | after `k` rows the counters name the file and count at most `k` rows |
| MultiDataset.ProcessDataset | data-warehouse/script/multi_dataset_converter.py:266-347 | a missing file abandons the dataset; a processed dataset's counters name its file and count at most its rows |
| MultiDataset.SameNameSameId | data-warehouse/script/multi_dataset_converter.py:300-308 | two rows of a dataset with the same name get the same identifier and action, since only earlier datasets are consulted |
| MultiDataset.AbortIsFinal | data-warehouse/script/multi_dataset_converter.py:287-292 | once a row has abandoned the dataset, later rows do not revive it |
| MultiDataset.FoldFails | data-warehouse/script/multi_dataset_converter.py:290-292 | the row fold fails exactly when some row lacks a `description` |
| MultiDataset.FoldStats | data-warehouse/script/multi_dataset_converter.py:297-317 | the total never exceeds the rows read; total = added + skipped + merged; one conflict entry per skip; nothing is skipped unless skip met an earlier dataset, nothing merged unless merge did |
| MultiDataset.FoldKeys | data-warehouse/script/multi_dataset_converter.py:310-337 | the stored identifiers are exactly those of the stored outcomes; skipped and blank rows add none |
| MultiDataset.FoldRecords | data-warehouse/script/multi_dataset_converter.py:330-337 | every stored record fits the earlier datasets and the strategy |
| MultiDataset.DatasetFails | data-warehouse/script/multi_dataset_converter.py:287-292 | a dataset is abandoned exactly when its file is missing or one of its rows lacks a `description` |
| MultiDataset.OutcomesFit | data-warehouse/script/multi_dataset_converter.py:290-337 | every row's outcome fits the earlier datasets and the strategy |
| MultiDataset.DatasetStats | data-warehouse/script/multi_dataset_converter.py:278-317 | a processed dataset's counters name its file, add up, and count no skip or merge unless the strategy met an earlier dataset |
| MultiDataset.DatasetRecordsFit | data-warehouse/script/multi_dataset_converter.py:302-337 | every record a processed dataset stores fits the earlier datasets and the strategy |
| MultiDataset.FitConsequences | data-warehouse/script/multi_dataset_converter.py:356-375 | fitting records have well-shaped keys and sit under their own identifiers; under skip and suffix they never share a key with an earlier dataset; under merge a shared key holds a merge of the earlier record |
| MultiDataset.Enabled | data-warehouse/script/multi_dataset_converter.py:205 | a configuration is kept exactly when it is in the list and enabled; a one-entry list is kept exactly when its entry is enabled |
| MultiDataset.EnabledAppend | data-warehouse/script/multi_dataset_converter.py:205 | the filter distributes over concatenation, so it keeps the configurations in their order |
| MultiDataset.Absorb | data-warehouse/script/multi_dataset_converter.py:222-234 | an abandoned dataset changes nothing; otherwise the keys are the union, the new dataset's records win, every other record is kept, and its counters are appended |
| MultiDataset.AddDataset | data-warehouse/script/multi_dataset_converter.py:222-234 | the update computes `Absorb` |
| MultiDataset.ProcessMultipleDatasets | data-warehouse/script/multi_dataset_converter.py:193-234 | the dataset loop, numbering datasets from 1, computes the fold of `ProcessDataset` over the enabled configurations |
| MultiDataset.ConverterFits | data-warehouse/script/multi_dataset_converter.py:266-347 | every processed dataset names its file, has balanced counters and stores only fitting records |
| MultiDataset.AbsorbKeeps | data-warehouse/script/multi_dataset_converter.py:223-227 | folding in a balanced dataset with well-shaped keys under their own identifiers keeps those properties of the whole |
| MultiDataset.Accumulate | data-warehouse/script/multi_dataset_converter.py:214-234 | after `k` datasets there are at most `k` counter sets |
| MultiDataset.AccumulateInvariant | data-warehouse/script/multi_dataset_converter.py:214-234 | after any number of datasets: at most one counter set per dataset, all balanced, every key well shaped and holding its own record |
| MultiDataset.EarlierRecords | data-warehouse/script/multi_dataset_converter.py:223-227 | one more dataset never loses a key; under skip and suffix it touches no earlier record; under merge an earlier record is kept or merged into |
| MultiDataset.RecordsPersist | data-warehouse/script/multi_dataset_converter.py:214-234 | under skip and suffix, every record of any earlier stage survives unchanged to any later stage |
| MultiDataset.MultipleDatasets | data-warehouse/script/multi_dataset_converter.py:193-234 | the final collection has well-shaped keys holding their own records and balanced counters; under skip and suffix every record of any intermediate stage is in it unchanged |

## Left out

- Reading and writing CSV files, opening files, and console output. A table
  is the given sequence of rows. A missing file is a missing entry.
- `discover_input_files` (directory mode) is left out, because it is a
  filesystem glob. `write_output` is left out too, because it only writes
  files.
- `float()` parsing is the parameter `parse`. `str(float)` is not modelled:
  a headline cell holds the number itself, and reading it back is exact.
- `round(x, 2)` is modelled on exact reals, with ties going to the even
  hundredth. Binary floating point and its representation error are not
  modelled. The averages in the merge are exact reals.
- JSON encoding is the identity. The bare `except: pass` around the nutrient
  merge cannot be reached with typed maps.
- Python's `\w` is given for ASCII, Latin-1 and Latin Extended-A/B, and
  `\s` is Python's full set of whitespace. Other characters are treated as
  neither letters nor blanks.
- Lower case (`LowerChar`) is mapped for ASCII, Latin-1 and Latin
  Extended-A only. Latin Extended-B capitals and all later blocks are
  left as they are, so a name using them gets a different identifier than
  in Python, and the identifier shape admits those capitals. `İ`
  (U+0130) is left as it is too, because its lower case is two code points.
- Upper case (`UpperChar`) is mapped for ASCII, Latin-1 and Latin
  Extended-A only. It leaves `ß` and `ŉ` as they are, where Python gives two
  characters. The only use is the null-marker test, and its answer is the
  same: in Python only `n`, `a`, `t`, `r` and their capitals upper-case to
  text made of `N`, `A`, `T` and `R` alone, and the model maps those alike.
- The unit names and the table keys are enumerations. The model does not
  state that the units of an entry are pairwise distinct.
- `resolve_id_conflict` also receives the food name, but it never uses it.
  The model drops that parameter.
- `process_single_dataset` works out each row's outcome (identifier,
  record, merge) before counting it. The source interleaves these steps.
  This is the same computation, because the outcome depends only on the
  row and the earlier datasets.
- The `try`/`except` blocks become the `None` results: `FileNotFound`, and
  `MissingDescription` for a row whose `description` is missing. A
  `description` cell that is `None` in a short row is treated like a
  missing column. Other exceptions cannot arise in the model.
- `convert_food_data` writes no output file when there are no rows. This is
  output plumbing and is not modelled.
- MultiDataset.RowOutcomeFits, and the fold lemmas built on it
  (`FoldRecords`, `DatasetRecordsFit`, `FitConsequences`), say only that a
  record stored under an earlier identifier under merge is the earlier
  record merged with *some* new record. Which record that is, is stated per
  row by `MultiDataset.NamedOutcomeRecord`.
