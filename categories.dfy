/** `categorize_food`: an ordered list of keyword rules, where the first rule
    with a keyword occurring in the lower-cased name gives the category. */
module Categories {
  import opened Common
  import opened Text

  /** `DEFAULT_CATEGORY`, the label for names no rule matches. */
  const DefaultCategory: string := "Alimentos"

  /** A category label with its keywords. */
  datatype Rule = Rule(name: string, keywords: seq<string>)

  /** The rules in declaration order. */
  const Rules: seq<Rule> := [
    Rule("Cereais", ["arroz", "trigo", "aveia", "milho", "centeio", "cevada", "quinoa"]),
    Rule("Leguminosas", ["feijão", "ervilha", "lentilha", "grão", "soja", "amendoim"]),
    Rule("Carnes", ["boi", "vaca", "frango", "galinha", "porco", "peru", "pato", "carne", "vitela"]),
    Rule("Peixes", ["peixe", "salmão", "atum", "sardinha", "bacalhau", "camarão", "lula"]),
    Rule("Laticínios", ["leite", "queijo", "iogurte", "manteiga", "nata", "requeijão"]),
    Rule("Frutas", ["maçã", "banana", "laranja", "uva", "manga", "mamão", "abacaxi", "melancia", "morango"]),
    Rule("Vegetais", ["tomate", "alface", "couve", "espinafre", "brócolis", "repolho", "pimentão"]),
    Rule("Tubérculos", ["batata", "mandioca", "inhame", "cará", "batata-doce"]),
    Rule("Óleos", ["óleo", "azeite", "gordura", "banha"]),
    Rule("Açúcares", ["açúcar", "mel", "doce", "melado", "rapadura"]),
    Rule("Bebidas", ["suco", "refrigerante", "café", "chá", "água", "vinho", "cerveja"]),
    Rule("Ovos", ["ovo"]),
    Rule("Pães", ["pão", "biscoito", "bolacha", "massa", "macarrão", "espaguete"]),
    Rule("Nozes", ["noz", "castanha", "amêndoa", "avelã", "pistache", "semente"])
  ]

  /** The rules have distinct labels. */
  lemma LabelsDistinct()
    ensures forall i, j :: 0 <= i < j < |Rules| ==> Rules[i].name != Rules[j].name
  {
  }

  /** `any(keyword in text for keyword in keywords)`. */
  predicate Matches(rule: Rule, text: string) {
    exists k :: 0 <= k < |rule.keywords| && Contains(text, rule.keywords[k])
  }

  /** The index of the first rule matching `text`, if any. */
  function FirstMatch(rules: seq<Rule>, text: string): (r: Option<nat>)
    ensures r.Some? ==> r.value < |rules| && Matches(rules[r.value], text)
    ensures r.Some? ==> forall j :: 0 <= j < r.value ==> !Matches(rules[j], text)
    ensures r.None? ==> forall j :: 0 <= j < |rules| ==> !Matches(rules[j], text)
    decreases |rules|
  {
    if rules == [] then None
    else if Matches(rules[0], text) then Some(0)
    else match FirstMatch(rules[1..], text) {
      case None => None
      case Some(i) => Some(i + 1)
    }
  }

  /** The label of the first rule in `rules` matching `text`, else `fallback`. */
  function Label(rules: seq<Rule>, text: string, fallback: string): (l: string)
    ensures (forall j :: 0 <= j < |rules| ==> !Matches(rules[j], text)) ==> l == fallback
    ensures forall i ::
      (0 <= i < |rules| && Matches(rules[i], text) && (forall j :: 0 <= j < i ==> !Matches(rules[j], text)))
      ==> l == rules[i].name
    ensures l == fallback || exists i :: 0 <= i < |rules| && rules[i].name == l
  {
    match FirstMatch(rules, text) {
      case None => fallback
      case Some(i) => rules[i].name
    }
  }

  /** `categorize_food`: the label of the first matching rule, else the default. */
  function Categorize(name: string): (category: string)
    ensures (forall j :: 0 <= j < |Rules| ==> !Matches(Rules[j], Lower(name))) ==> category == DefaultCategory
    ensures forall i ::
      (0 <= i < |Rules| && Matches(Rules[i], Lower(name)) && (forall j :: 0 <= j < i ==> !Matches(Rules[j], Lower(name))))
      ==> category == Rules[i].name
    ensures category == DefaultCategory || exists i :: 0 <= i < |Rules| && Rules[i].name == category
  {
    Label(Rules, Lower(name), DefaultCategory)
  }

  /** Every keyword has a character, given by `witnesses`, that `text` lacks, so
      the rule cannot match. */
  lemma NoMatchByMissingChars(rule: Rule, text: string, witnesses: string)
    requires |witnesses| == |rule.keywords|
    requires forall k :: 0 <= k < |witnesses| ==> witnesses[k] in rule.keywords[k] && witnesses[k] !in text
    ensures !Matches(rule, text)
  {
    forall k | 0 <= k < |rule.keywords| ensures !Contains(text, rule.keywords[k]) {
      ContainsOnlyTextChars(text, rule.keywords[k], witnesses[k]);
    }
  }

  /** A name mentioning rice is a cereal: `arroz` is the first keyword of the
      first rule. */
  lemma RiceIsCereal(name: string)
    requires Contains(Lower(name), "arroz")
    ensures Categorize(name) == "Cereais"
  {
    assert Rules[0].keywords[0] == "arroz";
    assert Matches(Rules[0], Lower(name));
  }

  lemma WatermelonIsNotCereais()
    ensures !Matches(Rules[0], "melancia")
  {
    NoMatchByMissingChars(Rules[0], "melancia", "rrvhtvq");
  }

  lemma WatermelonIsNotLeguminosas()
    ensures !Matches(Rules[1], "melancia")
  {
    NoMatchByMissingChars(Rules[1], "melancia", "frtgsd");
  }

  lemma WatermelonIsNotCarnes()
    ensures !Matches(Rules[2], "melancia")
  {
    NoMatchByMissingChars(Rules[2], "melancia", "bvfgppprv");
  }

  lemma WatermelonIsNotPeixes()
    ensures !Matches(Rules[3], "melancia")
  {
    NoMatchByMissingChars(Rules[3], "melancia", "pstsbru");
  }

  lemma WatermelonIsNotLaticinios()
    ensures !Matches(Rules[4], "melancia")
  {
    NoMatchByMissingChars(Rules[4], "melancia", "tqottr");
  }

  /** None of the first five rules matches "melancia": each of their keywords
      has a letter the word lacks. */
  lemma WatermelonMissesEarlierRules()
    ensures forall j :: 0 <= j < 5 ==> !Matches(Rules[j], "melancia")
  {
    WatermelonIsNotCereais();
    WatermelonIsNotLeguminosas();
    WatermelonIsNotCarnes();
    WatermelonIsNotPeixes();
    WatermelonIsNotLaticinios();
  }

  /** Declaration order breaks ties: "melancia" contains both the fruit keyword
      `melancia` and the sugar keyword `mel`, and the fruits are declared first. */
  lemma WatermelonIsFruit()
    ensures Matches(Rules[9], "melancia")
    ensures Categorize("melancia") == "Frutas"
  {
    var text := "melancia";
    LowerOfLowered(text);
    WatermelonMissesEarlierRules();
    assert IsPrefix(Rules[9].keywords[1], text);
    assert IsPrefix(Rules[5].keywords[7], text);
    assert Matches(Rules[5], text);
  }
}
