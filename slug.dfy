/** The snake_case identifier derived from a food name (`generate_id_from_name`
    in the multi-dataset converter; the same cleaning steps open
    `generate_unique_id` in the single-file converter). */
module Slug {
  import opened Common
  import opened Text

  /** The identifier used when nothing of the name survives cleaning. */
  const Placeholder: string := "food_item"

  predicate IsUnderscore(c: char) {
    c == '_'
  }

  /** A character that may appear in an identifier: a lower-case word character. */
  predicate SlugChar(c: char) {
    IsWordChar(c) && !IsSpace(c) && LowerChar(c) == c
  }

  predicate NoDoubleUnderscore(s: string) {
    forall i :: 0 <= i < |s| - 1 ==> !(s[i] == '_' && s[i + 1] == '_')
  }

  /** The shape of every identifier: non-empty, lower-case word characters only,
      no whitespace, no `__`, and no `_` at either end. */
  predicate IsSlug(s: string) {
    && |s| > 0
    && s[0] != '_'
    && s[|s| - 1] != '_'
    && (forall i :: 0 <= i < |s| ==> SlugChar(s[i]))
    && NoDoubleUnderscore(s)
  }

  /** A character the special-character pass keeps: a word character or
      whitespace. */
  predicate Kept(c: char) {
    IsWordChar(c) || IsSpace(c)
  }

  /** `re.sub(r'[^\w\s]', '', s)`: drop every character that is neither a word
      character nor whitespace. */
  function RemoveSpecialChars(s: string): (r: string)
    ensures forall i :: 0 <= i < |r| ==> (IsWordChar(r[i]) || IsSpace(r[i])) && r[i] in s
    ensures forall c :: c in r <==> c in s && (IsWordChar(c) || IsSpace(c))
    ensures (forall i :: 0 <= i < |s| ==> IsWordChar(s[i])) ==> r == s
  {
    FilterKeepsAll(s, Kept);
    FilterChars(s, Kept);
    var r := Filter(s, Kept);
    assert forall i :: 0 <= i < |r| ==> r[i] in r;
    r
  }

  /** The pass works character by character: on a concatenation it is the
      concatenation of the passes over the two parts, so the kept characters
      stay in their order. */
  lemma RemoveSpecialCharsAppend(a: string, b: string)
    ensures RemoveSpecialChars(a + b) == RemoveSpecialChars(a) + RemoveSpecialChars(b)
  {
    FilterAppend(a, b, Kept);
  }

  /** The name after lowering, dropping special characters, turning whitespace
      runs into `_`, squeezing `_` runs and stripping `_` from both ends: empty
      or an identifier. */
  function Cleaned(name: string): (c: string)
    ensures c == [] || IsSlug(c)
  {
    var lowered := Lower(name);
    var kept := RemoveSpecialChars(lowered);
    KeptChars(name);
    var spaced := CollapseRuns(kept, IsSpace, '_');
    SpacedChars(kept);
    var squeezed := CollapseRuns(spaced, IsUnderscore, '_');
    SqueezedChars(spaced);
    StrippedIsSlugOrEmpty(squeezed);
    Strip(squeezed, IsUnderscore)
  }

  /** Cleaning adds nothing but `_`: every other character of the result is a
      character of the lower-cased name. */
  lemma CleanedFromName(name: string)
    ensures forall i :: 0 <= i < |Cleaned(name)| ==> Cleaned(name)[i] == '_' || Cleaned(name)[i] in Lower(name)
  {
    var lowered := Lower(name);
    var kept := RemoveSpecialChars(lowered);
    var spaced := CollapseRuns(kept, IsSpace, '_');
    var squeezed := CollapseRuns(spaced, IsUnderscore, '_');
    StripIsBlock(squeezed, IsUnderscore);
    CleanedChars(lowered, kept, spaced, squeezed, Strip(squeezed, IsUnderscore), StripStart(squeezed, IsUnderscore));
  }

  /** Every character that survives cleaning is `_` or comes from the lowered
      name: each pass only drops characters or writes `_`. */
  lemma CleanedChars(lowered: string, kept: string, spaced: string, squeezed: string, c: string, lo: nat)
    requires forall x :: x in kept ==> x in lowered
    requires forall i :: 0 <= i < |spaced| ==> spaced[i] == '_' || spaced[i] in kept
    requires forall i :: 0 <= i < |squeezed| ==> squeezed[i] == '_' || squeezed[i] in spaced
    requires BlockIn(squeezed, c, lo, IsUnderscore)
    ensures forall i :: 0 <= i < |c| ==> c[i] == '_' || c[i] in lowered
  {
    forall i | 0 <= i < |c| && c[i] != '_' ensures c[i] in lowered {
      assert c[i] == squeezed[lo + i];
    }
  }

  /** `generate_id_from_name`: the cleaned name, or the placeholder when it is empty.
      Either way the result has the identifier shape. */
  function GenerateIdFromName(name: string): (id: string)
    ensures IsSlug(id)
    ensures Cleaned(name) == [] ==> id == Placeholder
    ensures Cleaned(name) != [] ==> id == Cleaned(name)
  {
    PlaceholderIsSlug();
    var cleaned := Cleaned(name);
    if cleaned == [] then Placeholder else cleaned
  }

  lemma PlaceholderIsSlug()
    ensures IsSlug(Placeholder)
  {
    assert forall i :: 0 <= i < |Placeholder| ==> SlugChar(Placeholder[i]);
  }

  /** Lowering, then dropping special characters, leaves lower-case word
      characters and whitespace. */
  lemma KeptChars(name: string)
    ensures forall x :: x in RemoveSpecialChars(Lower(name)) ==>
      LowerChar(x) == x && (IsWordChar(x) || IsSpace(x))
  {
    var lowered := Lower(name);
    forall i | 0 <= i < |lowered| ensures LowerChar(lowered[i]) == lowered[i] {
      LowerCharIdempotent(name[i]);
    }
    var kept := RemoveSpecialChars(lowered);
    forall x | x in kept ensures LowerChar(x) == x && (IsWordChar(x) || IsSpace(x)) {
      var i :| 0 <= i < |kept| && kept[i] == x;
    }
  }

  /** Turning whitespace runs into `_` leaves only identifier characters. */
  lemma SpacedChars(kept: string)
    requires forall x :: x in kept ==> LowerChar(x) == x && (IsWordChar(x) || IsSpace(x))
    ensures forall x :: x in CollapseRuns(kept, IsSpace, '_') ==> SlugChar(x)
  {
    var spaced := CollapseRuns(kept, IsSpace, '_');
    forall x | x in spaced ensures SlugChar(x) {
      var i :| 0 <= i < |spaced| && spaced[i] == x;
      if x != '_' {
        assert x in kept && !IsSpace(x);
      } else {
        assert SlugChar('_');
      }
    }
  }

  /** Squeezing `_` runs keeps the alphabet and leaves no `__`. */
  lemma SqueezedChars(spaced: string)
    requires forall x :: x in spaced ==> SlugChar(x)
    ensures forall x :: x in CollapseRuns(spaced, IsUnderscore, '_') ==> SlugChar(x)
    ensures NoDoubleUnderscore(CollapseRuns(spaced, IsUnderscore, '_'))
  {
    var squeezed := CollapseRuns(spaced, IsUnderscore, '_');
    forall x | x in squeezed ensures SlugChar(x) {
      var i :| 0 <= i < |squeezed| && squeezed[i] == x;
      if x != '_' {
        assert x in spaced;
      } else {
        assert SlugChar('_');
      }
    }
  }

  /** Stripping `_` from a `__`-free string over the alphabet gives an identifier
      or the empty string. */
  lemma StrippedIsSlugOrEmpty(squeezed: string)
    requires forall x :: x in squeezed ==> SlugChar(x)
    requires NoDoubleUnderscore(squeezed)
    ensures Strip(squeezed, IsUnderscore) == [] || IsSlug(Strip(squeezed, IsUnderscore))
  {
    var r := Strip(squeezed, IsUnderscore);
    StripIsBlock(squeezed, IsUnderscore);
    var lo := StripStart(squeezed, IsUnderscore);
    assert forall i :: 0 <= i < |r| ==> r[i] == squeezed[lo + i];
    assert forall i :: 0 <= i < |r| ==> SlugChar(r[i]) by {
      forall i | 0 <= i < |r| ensures SlugChar(r[i]) {
        assert r[i] in squeezed;
      }
    }
  }

  /** An identifier is its own identifier: running the generator on its output
      changes nothing. */
  lemma SlugIsFixedPoint(s: string)
    requires IsSlug(s)
    ensures GenerateIdFromName(s) == s
  {
    LowerOfLowered(s);
    SlugKeptWhole(s);
    SlugRunsCollapsed(s);
    StripOfStripped(s, IsUnderscore);
    assert Cleaned(s) == Strip(s, IsUnderscore);
  }

  /** An identifier has no special character to drop. */
  lemma SlugKeptWhole(s: string)
    requires IsSlug(s)
    ensures RemoveSpecialChars(s) == s
  {
    assert forall i :: 0 <= i < |s| ==> IsWordChar(s[i]);
  }

  /** An identifier has no whitespace run and no `_` run to collapse. */
  lemma SlugRunsCollapsed(s: string)
    requires IsSlug(s)
    ensures CollapseRuns(s, IsSpace, '_') == s
    ensures CollapseRuns(s, IsUnderscore, '_') == s
  {
    CollapseRunsOfCollapsed(s, IsSpace, '_');
    CollapseRunsOfCollapsed(s, IsUnderscore, '_');
  }

  /** Generating an identifier twice gives the same identifier as once. */
  lemma GenerateIdIdempotent(name: string)
    ensures GenerateIdFromName(GenerateIdFromName(name)) == GenerateIdFromName(name)
  {
    SlugIsFixedPoint(GenerateIdFromName(name));
  }

  /** Joining two identifiers with `_` gives an identifier: this is how the
      converters number repeated identifiers. */
  lemma JoinIsSlug(a: string, b: string)
    requires IsSlug(a) && IsSlug(b)
    ensures IsSlug(a + "_" + b)
  {
    var id := a + "_" + b;
    forall i | 0 <= i < |id| ensures SlugChar(id[i]) {
      if i < |a| {
        assert id[i] == a[i];
      } else if i > |a| {
        assert id[i] == b[i - |a| - 1];
      }
    }
    forall i | 0 <= i < |id| - 1 ensures !(id[i] == '_' && id[i + 1] == '_') {
      if i + 1 < |a| {
        assert id[i] == a[i] && id[i + 1] == a[i + 1];
      } else if i + 1 == |a| {
        assert id[i] == a[|a| - 1];
      } else if i == |a| {
        assert id[i + 1] == b[0];
      } else {
        assert id[i] == b[i - |a| - 1] && id[i + 1] == b[i - |a|];
      }
    }
  }

  /** A decimal number is an identifier on its own. */
  lemma NumberIsSlug(n: nat)
    ensures IsSlug(NatToString(n))
  {
  }
}
