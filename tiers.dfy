/** The difficulty policy: the `DIFFICULTY_LEVELS` table, the category filter
    each tier puts on the shared corpus, and how a tier is resolved from the
    value stored in `users.difficulty` or from the text of a tier button. */
module Tiers {
  import opened Wrappers
  import opened Text

  datatype Tier = Easy | Medium | Hard

  /** The key under which a tier is stored in `users.difficulty`, which fits
      that VARCHAR(10) column. */
  function Key(t: Tier): (k: string)
    ensures 0 < |k| <= 10
  {
    match t
    case Easy => "easy"
    case Medium => "medium"
    case Hard => "hard"
  }

  /** The tier's display name, which is also the text of its button. No name
      contains the check mark the tier menu puts before the current tier. */
  function DisplayName(t: Tier): (name: string)
    ensures name != [] && CheckMark[0] !in name
  {
    match t
    case Easy => "🍏 Легкий"
    case Medium => "🍊 Средний"
    case Hard => "🌶️ Сложный"
  }

  /** `words_limit`: how many candidates each pool may contribute to a question. */
  function WordsLimit(t: Tier): (n: nat)
    ensures n >= 10
  {
    match t
    case Easy => 10
    case Medium => 20
    case Hard => 50
  }

  /** The word types the easy tier allows: colour, pronoun, number. */
  const EasyCategories: set<string> := {"цвет", "местоимение", "число"}

  /** The word type the medium tier excludes: difficult words. */
  const AdvancedCategory: string := "сложное"

  /** The tier's SQL filter on `common_words.word_type`, a nullable column.
      `word_type IN (...)` is not true of NULL; `word_type != 'сложное' OR
      word_type IS NULL` is. */
  predicate Allows(t: Tier, category: Option<string>) {
    match t
    case Easy => category.Some? && category.value in EasyCategories
    case Medium => category.None? || category.value != AdvancedCategory
    case Hard => true
  }

  /** Each tier's shared pool contains the pool of the tier below it, and its
      limit is larger. */
  lemma TiersNested(category: Option<string>)
    ensures Allows(Easy, category) ==> Allows(Medium, category)
    ensures Allows(Medium, category) ==> Allows(Hard, category)
    ensures WordsLimit(Easy) < WordsLimit(Medium) < WordsLimit(Hard)
  {
  }

  /** `DIFFICULTY_LEVELS[key]`, None where Python raises KeyError. */
  function TierOfKey(key: string): (r: Option<Tier>)
    ensures r.Some? ==> Key(r.value) == key
    ensures r.None? ==> forall t :: Key(t) != key
  {
    if key == "easy" then Some(Easy)
    else if key == "medium" then Some(Medium)
    else if key == "hard" then Some(Hard)
    else None
  }

  /** The tier a stored `users.difficulty` value selects. A missing row, a NULL
      and an empty string are all false in Python and select `medium`; any other
      value is looked up, and an unknown one raises KeyError (None here). */
  function ResolveStored(stored: Option<string>): (r: Option<Tier>)
    ensures (stored.None? || stored == Some("")) ==> r == Some(Medium)
    ensures (stored.Some? && stored.value != "") ==> r == TierOfKey(stored.value)
  {
    if stored.None? || stored.value == "" then Some(Medium) else TierOfKey(stored.value)
  }

  /** Storing a tier's key and resolving it gives the tier back. */
  lemma {:induction false} StoredKeyResolves(t: Tier)
    ensures ResolveStored(Some(Key(t))) == Some(t)
  {
    match t
    case Easy =>
    case Medium =>
    case Hard =>
  }

  /** The check mark the tier menu puts before the current tier's name. */
  const CheckMark: string := "✓ "

  /** `next(key for key, level in DIFFICULTY_LEVELS.items() if level['name'] == name)`,
      None where no tier has that name. */
  function TierNamed(name: string): (r: Option<Tier>)
    ensures r.Some? ==> DisplayName(r.value) == name
    ensures r.None? ==> forall t :: DisplayName(t) != name
  {
    if name == DisplayName(Easy) then Some(Easy)
    else if name == DisplayName(Medium) then Some(Medium)
    else if name == DisplayName(Hard) then Some(Hard)
    else None
  }

  /** The tier a button text selects once every "✓ " is removed from it, None
      where the text is no tier button (the tier handler does not fire). */
  function TierFromButton(text: string): (r: Option<Tier>)
    ensures r.Some? ==> DisplayName(r.value) == RemoveAll(text, CheckMark)
    ensures r.None? ==> forall t :: DisplayName(t) != RemoveAll(text, CheckMark)
  {
    TierNamed(RemoveAll(text, CheckMark))
  }

  /** Looking a tier's own display name up finds that tier: the names differ. */
  lemma {:induction false} NameFindsTier(t: Tier)
    ensures TierNamed(DisplayName(t)) == Some(t)
  {
    assert DisplayName(Easy)[0] != DisplayName(Medium)[0] && DisplayName(Medium)[0] != DisplayName(Hard)[0];
  }

  /** A tier's button selects that tier, with or without the check mark. */
  lemma ButtonSelectsTier(t: Tier)
    ensures TierFromButton(DisplayName(t)) == Some(t)
    ensures TierFromButton(CheckMark + DisplayName(t)) == Some(t)
  {
    var name := DisplayName(t);
    RemoveAllPrefix(CheckMark, name);
    assert RemoveAll(name, CheckMark) == name;
    NameFindsTier(t);
  }
}
