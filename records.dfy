/** The output record both converters build from one CSV row: `safe_float`,
    `format_value`, the sparse `nutritionPer100g` map, the eight headline
    columns and the category and unit entry chosen for the food. */
module Records {
  import opened Common
  import opened Text
  import Categories
  import Units

  /** One CSV row as `csv.DictReader` yields it: column name to cell text. A
      column the file lacks and a cell missing from a short row are both an
      absent key. */
  type Row = map<string, string>

  /** `row.get(column)`. */
  function Field(row: Row, column: string): (v: Option<string>)
    ensures v.Some? <==> column in row
    ensures v.Some? ==> v.value == row[column]
  {
    if column in row then Some(row[column]) else None
  }

  /** An output cell of a headline column: the text `NULL`, or a number as
      `str(value)` prints it. */
  datatype Cell = Null | Num(value: real)

  /** `DEFAULT_PAGE`. */
  const DefaultPage: string := "1"

  /** The `portion_g` column of every record. */
  const PortionGrams: int := 100

  /** The cell texts `safe_float` turns into `None` before parsing: `value.upper()`
      is `NA`, `TR` or empty. */
  predicate IsNullMarker(s: string) {
    Upper(s) == "NA" || Upper(s) == "TR" || Upper(s) == ""
  }

  /** `safe_float`: no value for a missing or empty cell or a null marker,
      otherwise whatever `float()` (the parameter `parse`) gives, where `None`
      stands for the `ValueError` branch. */
  function SafeFloat(v: Option<string>, parse: string -> Option<real>): (r: Option<real>)
    ensures r.Some? <==> v.Some? && v.value != "" && !IsNullMarker(v.value) && parse(v.value).Some?
    ensures r.Some? ==> r == parse(v.value)
  {
    if v.None? || v.value == "" || IsNullMarker(v.value) then None
    else parse(v.value)
  }

  /** The null markers are exactly the empty text and the eight spellings of
      `NA` and `TR` in upper and lower case. */
  lemma NullMarkers(s: string)
    ensures IsNullMarker(s) <==>
      s in ["", "NA", "Na", "nA", "na", "TR", "Tr", "tR", "tr"]
  {
    if IsNullMarker(s) {
      assert |s| == |Upper(s)|;
      if |s| == 2 {
        assert UpperChar(s[0]) == Upper(s)[0] && UpperChar(s[1]) == Upper(s)[1];
        assert s == [s[0], s[1]];
      }
    }
  }

  /** `format_value`: `NULL` exactly when there is no value. */
  function FormatValue(v: Option<real>): (c: Cell)
    ensures c.Null? <==> v.None?
    ensures v.Some? ==> c.value == v.value
  {
    if v.None? then Null else Num(v.value)
  }

  /** Reading a cell back (`float(cell)` where the cell is not `NULL`). */
  function CellValue(c: Cell): (v: Option<real>)
    ensures v.None? <==> c.Null?
  {
    match c
    case Null => None
    case Num(x) => Some(x)
  }

  /** Reading back a formatted value gives the value. This stands in for
      `float(str(x)) == x`, which the merge relies on when it reads a headline
      cell written by `format_value` back as a number. */
  lemma FormatValueRoundTrip(v: Option<real>)
    ensures CellValue(FormatValue(v)) == v
  {
  }

  /** The keys of `nutritionPer100g` and the source column each is read from. */
  const NutrientColumn: map<string, string> := map[
    "calories" := "energy_kcal", "energy_kj" := "energy_kj", "protein" := "protein_g",
    "fat" := "lipids_g", "carbs" := "carbohydrate_g", "fiber" := "fiber_g",
    "cholesterol" := "cholesterol_mg", "moisture" := "moisture_pct", "ash" := "ash_g",
    "calcium" := "calcium_mg", "magnesium" := "magnesium_mg", "manganese" := "manganese_mg",
    "phosphorus" := "phosphorus_mg", "iron" := "iron_mg", "sodium" := "sodium_mg",
    "potassium" := "potassium_mg", "copper" := "copper_mg", "zinc" := "zinc_mg",
    "retinol" := "retinol_mcg", "re" := "re_mcg", "rae" := "rae_mcg",
    "thiamine" := "thiamine_mg", "riboflavin" := "riboflavin_mg",
    "pyridoxine" := "pyridoxine_mg", "niacin" := "niacin_mg", "vitamin_c" := "vitamin_c_mg"
  ]

  /** The eight headline columns of the output, in the order the merge visits them. */
  const HeadlineFields: seq<string> :=
    ["energy_kcal", "protein_g", "fat_g", "carbs_g", "fiber_g", "calcium_mg", "iron_mg", "sodium_mg"]

  /** The source column each headline column is read from. */
  const HeadlineColumn: map<string, string> := map[
    "energy_kcal" := "energy_kcal", "protein_g" := "protein_g", "fat_g" := "lipids_g",
    "carbs_g" := "carbohydrate_g", "fiber_g" := "fiber_g", "calcium_mg" := "calcium_mg",
    "iron_mg" := "iron_mg", "sodium_mg" := "sodium_mg"
  ]

  /** The `nutritionPer100g` key holding the same value as each headline column. */
  const HeadlineNutrient: map<string, string> := map[
    "energy_kcal" := "calories", "protein_g" := "protein", "fat_g" := "fat",
    "carbs_g" := "carbs", "fiber_g" := "fiber", "calcium_mg" := "calcium",
    "iron_mg" := "iron", "sodium_mg" := "sodium"
  ]

  /** The three tables agree: each headline column is one of the nutrient
      keys' source columns, read under the same name. */
  lemma HeadlineTablesAgree()
    ensures forall f :: f in HeadlineFields <==> f in HeadlineColumn
    ensures forall f :: f in HeadlineColumn ==> f in HeadlineNutrient
    ensures forall f :: f in HeadlineColumn ==>
      HeadlineNutrient[f] in NutrientColumn && NutrientColumn[HeadlineNutrient[f]] == HeadlineColumn[f]
  {
    HeadlineKeysAgree();
    HeadlineSourcesAgree();
  }

  /** The headline fields, the headline columns and the headline nutrients
      have the same keys. */
  lemma HeadlineKeysAgree()
    ensures forall f :: f in HeadlineFields <==> f in HeadlineColumn
    ensures HeadlineColumn.Keys == HeadlineNutrient.Keys
  {
  }

  /** Each headline nutrient is read from the headline column's source column. */
  lemma HeadlineSourcesAgree()
    ensures forall f :: f in HeadlineNutrient ==>
      HeadlineNutrient[f] in NutrientColumn && NutrientColumn[HeadlineNutrient[f]] == HeadlineColumn[f]
  {
  }

  /** The sparse `nutritionPer100g` map: a key exactly for the nutrients whose
      cell `safe_float` accepts, holding that value. */
  function ExtractNutrients(row: Row, parse: string -> Option<real>): (m: map<string, real>)
    ensures m.Keys <= NutrientColumn.Keys
    ensures forall k :: k in NutrientColumn ==>
      (k in m <==> SafeFloat(Field(row, NutrientColumn[k]), parse).Some?)
    ensures forall k :: k in m ==> Some(m[k]) == SafeFloat(Field(row, NutrientColumn[k]), parse)
  {
    map k | k in NutrientColumn && SafeFloat(Field(row, NutrientColumn[k]), parse).Some?
      :: SafeFloat(Field(row, NutrientColumn[k]), parse).value
  }

  /** Fat is read from `lipids_g` and carbohydrates from `carbohydrate_g`. */
  lemma RenamedNutrients(row: Row, parse: string -> Option<real>)
    ensures "fat" in ExtractNutrients(row, parse) <==> SafeFloat(Field(row, "lipids_g"), parse).Some?
    ensures "carbs" in ExtractNutrients(row, parse) <==> SafeFloat(Field(row, "carbohydrate_g"), parse).Some?
  {
    assert NutrientColumn["fat"] == "lipids_g";
    assert NutrientColumn["carbs"] == "carbohydrate_g";
  }

  /** The eight headline cells: each `format_value` of its column's value. */
  function ExtractHeadline(row: Row, parse: string -> Option<real>): (h: map<string, Cell>)
    ensures h.Keys == HeadlineColumn.Keys
    ensures forall f :: f in h ==> (h[f].Null? <==> SafeFloat(Field(row, HeadlineColumn[f]), parse).None?)
    ensures forall f :: f in h && h[f].Num? ==> SafeFloat(Field(row, HeadlineColumn[f]), parse) == Some(h[f].value)
  {
    map f | f in HeadlineColumn :: FormatValue(SafeFloat(Field(row, HeadlineColumn[f]), parse))
  }

  /** An output row. `units`, `unitConversions` and `defaultUnit` are the unit
      entry; `nutritionPer100g` is the nutrient map (JSON is the identity). */
  datatype FoodRecord = FoodRecord(
    id: string,
    name: string,
    portionG: int,
    headline: map<string, Cell>,
    unitConfig: Units.UnitConfig,
    nutrition: map<string, real>,
    category: string,
    sourcePdf: string,
    page: string,
    notes: string)

  /** Each headline cell agrees with the nutrient map: `NULL` exactly when the
      nutrient key is absent, and otherwise the same value. */
  predicate HeadlineAgrees(r: FoodRecord) {
    forall f :: f in r.headline && f in HeadlineNutrient ==>
      (r.headline[f].Null? <==> HeadlineNutrient[f] !in r.nutrition)
      && (r.headline[f].Num? && HeadlineNutrient[f] in r.nutrition ==>
            r.headline[f].value == r.nutrition[HeadlineNutrient[f]])
  }

  /** The record body shared by `create_output_row` and the row loop of
      `convert_food_data`, given the identifier, the category, the source
      document and the notes text. */
  function BuildRecord(id: string, name: string, row: Row, sourcePdf: string, category: string,
                       notes: string, parse: string -> Option<real>): (r: FoodRecord)
    ensures r.id == id && r.name == name && r.portionG == PortionGrams
    ensures r.category == category && r.sourcePdf == sourcePdf && r.page == DefaultPage && r.notes == notes
    ensures r.headline == ExtractHeadline(row, parse) && r.nutrition == ExtractNutrients(row, parse)
    ensures r.headline.Keys == HeadlineColumn.Keys && HeadlineAgrees(r)
    ensures r.nutrition.Keys <= NutrientColumn.Keys
    ensures forall k :: k in NutrientColumn ==>
      (k in r.nutrition <==> SafeFloat(Field(row, NutrientColumn[k]), parse).Some?)
    ensures r.unitConfig == Units.GetUnitConfig(name, category) && Units.WellFormed(r.unitConfig)
    ensures Contains(Lower(name), "arroz") ==> r.unitConfig == Units.ArrozTable
  {
    HeadlineTablesAgree();
    FoodRecord(id, name, PortionGrams, ExtractHeadline(row, parse), Units.GetUnitConfig(name, category),
               ExtractNutrients(row, parse), category, sourcePdf, DefaultPage, notes)
  }

  /** `category_override or categorize_food(food_name)`: a non-empty override
      wins, otherwise the keyword rules decide. */
  function ChooseCategory(categoryOverride: Option<string>, name: string): (category: string)
    ensures categoryOverride.Some? && categoryOverride.value != "" ==> category == categoryOverride.value
    ensures categoryOverride.None? || categoryOverride.value == "" ==> category == Categories.Categorize(name)
  {
    if categoryOverride.Some? && categoryOverride.value != "" then categoryOverride.value
    else Categories.Categorize(name)
  }

  predicate IsQuote(c: char) {
    c == '"'
  }

  /** `row['description'].strip().strip('"')`. */
  function TrimDescription(description: string): (name: string)
    ensures |name| <= |description|
    ensures name == [] || (!IsQuote(name[0]) && !IsQuote(name[|name| - 1]))
    ensures description == [] || (!IsSpace(description[0]) && !IsQuote(description[0])
      && !IsSpace(description[|description| - 1]) && !IsQuote(description[|description| - 1]))
      ==> name == description
  {
    if description == [] || (!IsSpace(description[0]) && !IsQuote(description[0])
      && !IsSpace(description[|description| - 1]) && !IsQuote(description[|description| - 1]))
    then
      TrimOfTrimmed(description);
      Strip(Strip(description, IsSpace), IsQuote)
    else
      Strip(Strip(description, IsSpace), IsQuote)
  }

  /** The name is a block of the description, and every character of the
      description outside it is whitespace or a quote. The block starts after
      the leading whitespace and then after the quotes that follow it. */
  lemma TrimDescriptionIsBlock(description: string)
    ensures Amid(description, TrimDescription(description),
                 StripStart(description, IsSpace) + StripStart(Strip(description, IsSpace), IsQuote), IsSpace, IsQuote)
  {
    StripTwiceIsBlock(description, IsSpace, IsQuote);
    assert TrimDescription(description) == Strip(Strip(description, IsSpace), IsQuote);
    AmidOfEqual(description, Strip(Strip(description, IsSpace), IsQuote), TrimDescription(description),
                StripStart(description, IsSpace) + StripStart(Strip(description, IsSpace), IsQuote), IsSpace, IsQuote);
  }

  /** A description with no blank and no quote at either end is its own name. */
  lemma TrimOfTrimmed(description: string)
    requires description == [] || (!IsSpace(description[0]) && !IsQuote(description[0])
      && !IsSpace(description[|description| - 1]) && !IsQuote(description[|description| - 1]))
    ensures Strip(Strip(description, IsSpace), IsQuote) == description
  {
    StripOfStripped(description, IsSpace);
    StripOfStripped(description, IsQuote);
  }
}
