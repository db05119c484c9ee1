/** The portion-unit reference table (`UNIT_CONVERSIONS_DATABASE`, identical in
    both converters) and `get_unit_config`, which picks one of its entries for a
    food. The table's keys and the unit names form closed sets, so both are
    enumerations here; `UnitName` gives the text a unit is written as. */
module Units {
  import opened Common
  import opened Text
  import Categories

  /** The units any entry offers. */
  datatype Unit =
      Per100g | Gramas | G | Xicara | XicaraDeCha | ColherDeSopa | ColherDeCha | Kg
    | PratoFundo | PratoRaso | Concha | Bife | File | Peito | Coxa | Sobrecoxa | Fatia | Porcao
    | Posta | Unidade | Ml | Litro | Copo | UnidadePequena | UnidadeMedia | UnidadeGrande
    | Rodela | Folha | Pedaco | Fio | Per100ml | Clara | Gema | FatiaFina | FatiaGrossa
    | PaoFrances | Paozinho | Punhado

  /** The text of a unit in the output. */
  function UnitName(u: Unit): string {
    match u
    case Per100g => "100g"
    case Gramas => "gramas"
    case G => "g"
    case Xicara => "xícara"
    case XicaraDeCha => "xícara de chá"
    case ColherDeSopa => "colher de sopa"
    case ColherDeCha => "colher de chá"
    case Kg => "kg"
    case PratoFundo => "prato fundo"
    case PratoRaso => "prato raso"
    case Concha => "concha"
    case Bife => "bife"
    case File => "filé"
    case Peito => "peito"
    case Coxa => "coxa"
    case Sobrecoxa => "sobrecoxa"
    case Fatia => "fatia"
    case Porcao => "porção"
    case Posta => "posta"
    case Unidade => "unidade"
    case Ml => "ml"
    case Litro => "litro"
    case Copo => "copo"
    case UnidadePequena => "unidade pequena"
    case UnidadeMedia => "unidade média"
    case UnidadeGrande => "unidade grande"
    case Rodela => "rodela"
    case Folha => "folha"
    case Pedaco => "pedaço"
    case Fio => "fio"
    case Per100ml => "100ml"
    case Clara => "clara"
    case Gema => "gema"
    case FatiaFina => "fatia fina"
    case FatiaGrossa => "fatia grossa"
    case PaoFrances => "pão francês"
    case Paozinho => "pãozinho"
    case Punhado => "punhado"
  }

  /** One entry of the table: the default unit, the ordered units offered, and
      each unit's weight in grams (millilitres for drinks). */
  datatype UnitConfig = UnitConfig(defaultUnit: Unit, units: seq<Unit>, conversions: map<Unit, real>)

  /** The entry invariant: the default unit is offered, a unit is offered
      exactly when it has a conversion, and every conversion is a positive amount. */
  predicate WellFormed(u: UnitConfig) {
    && u.defaultUnit in u.units
    && (forall x :: x in u.units <==> x in u.conversions)
    && (forall x :: x in u.conversions ==> u.conversions[x] > 0.0)
  }

  const CereaisTable: UnitConfig := UnitConfig(
    Per100g,
    [Per100g, Gramas, G, Xicara, XicaraDeCha, ColherDeSopa, ColherDeCha, Kg],
    map[Per100g := 100.0, Gramas := 1.0, G := 1.0, Xicara := 200.0, XicaraDeCha := 200.0, ColherDeSopa := 15.0, ColherDeCha := 5.0, Kg := 1000.0])

  const ArrozTable: UnitConfig := UnitConfig(
    Per100g,
    [Per100g, Gramas, G, Xicara, XicaraDeCha, ColherDeSopa, ColherDeCha, PratoFundo, PratoRaso, Concha, Kg],
    map[Per100g := 100.0, Gramas := 1.0, G := 1.0, Xicara := 200.0, XicaraDeCha := 200.0, ColherDeSopa := 15.0, ColherDeCha := 5.0, PratoFundo := 300.0, PratoRaso := 150.0, Concha := 120.0, Kg := 1000.0])

  const LeguminosasTable: UnitConfig := UnitConfig(
    Per100g,
    [Per100g, Gramas, G, Xicara, ColherDeSopa, Concha, PratoFundo, Kg],
    map[Per100g := 100.0, Gramas := 1.0, G := 1.0, Xicara := 180.0, ColherDeSopa := 12.0, Concha := 100.0, PratoFundo := 250.0, Kg := 1000.0])

  const CarnesTable: UnitConfig := UnitConfig(
    Per100g,
    [Per100g, Gramas, G, Bife, File, Peito, Coxa, Sobrecoxa, Fatia, Porcao, Kg],
    map[Per100g := 100.0, Gramas := 1.0, G := 1.0, Bife := 120.0, File := 150.0, Peito := 200.0, Coxa := 150.0, Sobrecoxa := 180.0, Fatia := 30.0, Porcao := 150.0, Kg := 1000.0])

  const PeixesTable: UnitConfig := UnitConfig(
    Per100g,
    [Per100g, Gramas, G, File, Posta, Unidade, Porcao, Kg],
    map[Per100g := 100.0, Gramas := 1.0, G := 1.0, File := 150.0, Posta := 200.0, Unidade := 180.0, Porcao := 150.0, Kg := 1000.0])

  const LaticiniosTable: UnitConfig := UnitConfig(
    Per100g,
    [Per100g, Gramas, G, Ml, Litro, Copo, Xicara, ColherDeSopa, ColherDeCha, Fatia],
    map[Per100g := 100.0, Gramas := 1.0, G := 1.0, Ml := 1.03, Litro := 1030.0, Copo := 240.0, Xicara := 240.0, ColherDeSopa := 15.0, ColherDeCha := 5.0, Fatia := 20.0])

  const FrutasTable: UnitConfig := UnitConfig(
    Per100g,
    [Per100g, Gramas, G, Unidade, UnidadePequena, UnidadeMedia, UnidadeGrande, Fatia, Rodela, Xicara, ColherDeSopa, Kg],
    map[Per100g := 100.0, Gramas := 1.0, G := 1.0, Unidade := 150.0, UnidadePequena := 100.0, UnidadeMedia := 150.0, UnidadeGrande := 200.0, Fatia := 50.0, Rodela := 30.0, Xicara := 120.0, ColherDeSopa := 15.0, Kg := 1000.0])

  const VegetaisTable: UnitConfig := UnitConfig(
    Per100g,
    [Per100g, Gramas, G, Unidade, Xicara, ColherDeSopa, ColherDeCha, PratoFundo, PratoRaso, Folha, Kg],
    map[Per100g := 100.0, Gramas := 1.0, G := 1.0, Unidade := 120.0, Xicara := 100.0, ColherDeSopa := 10.0, ColherDeCha := 3.0, PratoFundo := 200.0, PratoRaso := 100.0, Folha := 10.0, Kg := 1000.0])

  const TuberculosTable: UnitConfig := UnitConfig(
    Per100g,
    [Per100g, Gramas, G, Unidade, UnidadePequena, UnidadeMedia, UnidadeGrande, Fatia, Pedaco, Xicara, Kg],
    map[Per100g := 100.0, Gramas := 1.0, G := 1.0, Unidade := 180.0, UnidadePequena := 120.0, UnidadeMedia := 180.0, UnidadeGrande := 250.0, Fatia := 40.0, Pedaco := 50.0, Xicara := 150.0, Kg := 1000.0])

  const OleosTable: UnitConfig := UnitConfig(
    Per100g,
    [Per100g, Gramas, G, Ml, Litro, ColherDeSopa, ColherDeCha, Fio],
    map[Per100g := 100.0, Gramas := 1.0, G := 1.0, Ml := 0.92, Litro := 920.0, ColherDeSopa := 13.0, ColherDeCha := 4.0, Fio := 2.0])

  const AcucaresTable: UnitConfig := UnitConfig(
    Per100g,
    [Per100g, Gramas, G, ColherDeSopa, ColherDeCha, Xicara, Kg],
    map[Per100g := 100.0, Gramas := 1.0, G := 1.0, ColherDeSopa := 12.0, ColherDeCha := 4.0, Xicara := 180.0, Kg := 1000.0])

  const BebidasTable: UnitConfig := UnitConfig(
    Per100ml,
    [Per100ml, Ml, Litro, Copo, Xicara, ColherDeSopa, ColherDeCha],
    map[Per100ml := 100.0, Ml := 1.0, Litro := 1000.0, Copo := 240.0, Xicara := 240.0, ColherDeSopa := 15.0, ColherDeCha := 5.0])

  const OvosTable: UnitConfig := UnitConfig(
    Per100g,
    [Per100g, Gramas, G, Unidade, UnidadePequena, UnidadeMedia, UnidadeGrande, Clara, Gema],
    map[Per100g := 100.0, Gramas := 1.0, G := 1.0, Unidade := 50.0, UnidadePequena := 40.0, UnidadeMedia := 50.0, UnidadeGrande := 60.0, Clara := 30.0, Gema := 20.0])

  const PaesTable: UnitConfig := UnitConfig(
    Per100g,
    [Per100g, Gramas, G, Unidade, Fatia, FatiaFina, FatiaGrossa, PaoFrances, Paozinho, Xicara, Kg],
    map[Per100g := 100.0, Gramas := 1.0, G := 1.0, Unidade := 50.0, Fatia := 25.0, FatiaFina := 20.0, FatiaGrossa := 35.0, PaoFrances := 50.0, Paozinho := 50.0, Xicara := 100.0, Kg := 1000.0])

  const NozesTable: UnitConfig := UnitConfig(
    Per100g,
    [Per100g, Gramas, G, Unidade, Xicara, ColherDeSopa, ColherDeCha, Punhado, Kg],
    map[Per100g := 100.0, Gramas := 1.0, G := 1.0, Unidade := 5.0, Xicara := 140.0, ColherDeSopa := 10.0, ColherDeCha := 3.0, Punhado := 30.0, Kg := 1000.0])

  const DefaultTable: UnitConfig := UnitConfig(
    Per100g,
    [Per100g, Gramas, G, Unidade, Porcao, ColherDeSopa, ColherDeCha, Xicara, Kg],
    map[Per100g := 100.0, Gramas := 1.0, G := 1.0, Unidade := 100.0, Porcao := 150.0, ColherDeSopa := 15.0, ColherDeCha := 5.0, Xicara := 150.0, Kg := 1000.0])

  /** The keys of the table. */
  datatype Entry =
    Cereais | Arroz | Leguminosas | Carnes | Peixes | Laticinios | Frutas | Vegetais
    | Tuberculos | Oleos | Acucares | Bebidas | Ovos | Paes | Nozes | Default

  /** `UNIT_CONVERSIONS_DATABASE[key]`. */
  function Table(e: Entry): UnitConfig {
    match e
    case Cereais => CereaisTable
    case Arroz => ArrozTable
    case Leguminosas => LeguminosasTable
    case Carnes => CarnesTable
    case Peixes => PeixesTable
    case Laticinios => LaticiniosTable
    case Frutas => FrutasTable
    case Vegetais => VegetaisTable
    case Tuberculos => TuberculosTable
    case Oleos => OleosTable
    case Acucares => AcucaresTable
    case Bebidas => BebidasTable
    case Ovos => OvosTable
    case Paes => PaesTable
    case Nozes => NozesTable
    case Default => DefaultTable
  }

  /** `category_map.get(category, 'default')` in `get_unit_config`: display
      category to table key. Every key the map yields is in the table, so the
      fallback of the second lookup is never taken; the rice entry is reached
      only through the name test. */
  function EntryOf(category: string): (e: Entry)
    ensures e != Arroz
    ensures e != Default ==> LabelOf(e) == category
  {
    if category == "Cereais" then Cereais
    else if category == "Leguminosas" then Leguminosas
    else if category == "Carnes" then Carnes
    else if category == "Peixes" then Peixes
    else if category == "Laticínios" then Laticinios
    else if category == "Frutas" then Frutas
    else if category == "Vegetais" then Vegetais
    else if category == "Tubérculos" then Tuberculos
    else if category == "Óleos" then Oleos
    else if category == "Açúcares" then Acucares
    else if category == "Bebidas" then Bebidas
    else if category == "Ovos" then Ovos
    else if category == "Pães" then Paes
    else if category == "Nozes" then Nozes
    else Default
  }

  /** The label of the category that maps to `e`; the rice and default entries
      have none. */
  function LabelOf(e: Entry): string {
    match e
    case Cereais => "Cereais"
    case Leguminosas => "Leguminosas"
    case Carnes => "Carnes"
    case Peixes => "Peixes"
    case Laticinios => "Laticínios"
    case Frutas => "Frutas"
    case Vegetais => "Vegetais"
    case Tuberculos => "Tubérculos"
    case Oleos => "Óleos"
    case Acucares => "Açúcares"
    case Bebidas => "Bebidas"
    case Ovos => "Ovos"
    case Paes => "Pães"
    case Nozes => "Nozes"
    case Arroz => ""
    case Default => ""
  }

  lemma CereaisTableWellFormed()
    ensures WellFormed(CereaisTable)
  {
  }

  lemma ArrozTableWellFormed()
    ensures WellFormed(ArrozTable)
  {
  }

  lemma LeguminosasTableWellFormed()
    ensures WellFormed(LeguminosasTable)
  {
  }

  lemma CarnesTableWellFormed()
    ensures WellFormed(CarnesTable)
  {
  }

  lemma PeixesTableWellFormed()
    ensures WellFormed(PeixesTable)
  {
  }

  lemma LaticiniosTableWellFormed()
    ensures WellFormed(LaticiniosTable)
  {
  }

  lemma FrutasTableWellFormed()
    ensures WellFormed(FrutasTable)
  {
  }

  lemma VegetaisTableWellFormed()
    ensures WellFormed(VegetaisTable)
  {
  }

  lemma TuberculosTableWellFormed()
    ensures WellFormed(TuberculosTable)
  {
  }

  lemma OleosTableWellFormed()
    ensures WellFormed(OleosTable)
  {
  }

  lemma AcucaresTableWellFormed()
    ensures WellFormed(AcucaresTable)
  {
  }

  lemma BebidasTableWellFormed()
    ensures WellFormed(BebidasTable)
  {
  }

  lemma OvosTableWellFormed()
    ensures WellFormed(OvosTable)
  {
  }

  lemma PaesTableWellFormed()
    ensures WellFormed(PaesTable)
  {
  }

  lemma NozesTableWellFormed()
    ensures WellFormed(NozesTable)
  {
  }

  lemma DefaultTableWellFormed()
    ensures WellFormed(DefaultTable)
  {
  }

  /** Every entry of the table satisfies the entry invariant. */
  lemma TableWellFormed(e: Entry)
    ensures WellFormed(Table(e))
  {
    match e
    case Cereais => CereaisTableWellFormed();
    case Arroz => ArrozTableWellFormed();
    case Leguminosas => LeguminosasTableWellFormed();
    case Carnes => CarnesTableWellFormed();
    case Peixes => PeixesTableWellFormed();
    case Laticinios => LaticiniosTableWellFormed();
    case Frutas => FrutasTableWellFormed();
    case Vegetais => VegetaisTableWellFormed();
    case Tuberculos => TuberculosTableWellFormed();
    case Oleos => OleosTableWellFormed();
    case Acucares => AcucaresTableWellFormed();
    case Bebidas => BebidasTableWellFormed();
    case Ovos => OvosTableWellFormed();
    case Paes => PaesTableWellFormed();
    case Nozes => NozesTableWellFormed();
    case Default => DefaultTableWellFormed();
  }

  /** Every label the categoriser can return has an entry of its own, and the
      default label falls back to the `default` entry. */
  lemma CategoryLabelsAreMapped()
    ensures forall i :: 0 <= i < |Categories.Rules| ==> EntryOf(Categories.Rules[i].name) != Default
    ensures EntryOf(Categories.DefaultCategory) == Default
  {
  }

  /** No two labels of the categoriser share an entry. */
  lemma LabelEntriesDistinct()
    ensures forall i, j :: 0 <= i < j < |Categories.Rules| ==>
      EntryOf(Categories.Rules[i].name) != EntryOf(Categories.Rules[j].name)
  {
    CategoryLabelsAreMapped();
    Categories.LabelsDistinct();
    forall i, j | 0 <= i < j < |Categories.Rules|
      ensures EntryOf(Categories.Rules[i].name) != EntryOf(Categories.Rules[j].name)
    {
      assert LabelOf(EntryOf(Categories.Rules[i].name)) == Categories.Rules[i].name;
      assert LabelOf(EntryOf(Categories.Rules[j].name)) == Categories.Rules[j].name;
    }
  }

  /** A category that is none of the rule labels, such as the default label
      or an override of the caller's own, gets the `default` entry. */
  lemma UnmappedCategoryIsDefault(category: string)
    requires forall i :: 0 <= i < |Categories.Rules| ==> Categories.Rules[i].name != category
    ensures EntryOf(category) == Default
  {
    assert Categories.Rules[0].name != category;
    assert Categories.Rules[1].name != category;
    assert Categories.Rules[2].name != category;
    assert Categories.Rules[3].name != category;
    assert Categories.Rules[4].name != category;
    assert Categories.Rules[5].name != category;
    assert Categories.Rules[6].name != category;
    assert Categories.Rules[7].name != category;
    assert Categories.Rules[8].name != category;
    assert Categories.Rules[9].name != category;
    assert Categories.Rules[10].name != category;
    assert Categories.Rules[11].name != category;
    assert Categories.Rules[12].name != category;
    assert Categories.Rules[13].name != category;
  }

  /** `get_unit_config`: the rice entry when the lower-cased name mentions
      `arroz`, whatever the category; otherwise the category's entry, or the
      `default` entry for a category the map does not know. */
  function GetUnitConfig(name: string, category: string): (u: UnitConfig)
    ensures WellFormed(u)
    ensures Contains(Lower(name), "arroz") ==> u == ArrozTable
    ensures !Contains(Lower(name), "arroz") ==> u == Table(EntryOf(category))
    ensures !Contains(Lower(name), "arroz") && EntryOf(category) == Default ==> u == DefaultTable
  {
    TableWellFormed(Arroz);
    TableWellFormed(EntryOf(category));
    if Contains(Lower(name), "arroz") then Table(Arroz)
    else Table(EntryOf(category))
  }

  /** The rice override wins over any category, including a forced one. */
  lemma RiceOverridesCategory(name: string, c1: string, c2: string)
    requires Contains(Lower(name), "arroz")
    ensures GetUnitConfig(name, c1) == GetUnitConfig(name, c2)
    ensures Concha in GetUnitConfig(name, c1).conversions && GetUnitConfig(name, c1).conversions[Concha] == 120.0
  {
  }
}
