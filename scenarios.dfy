/** Concrete situations, on entries of the seed corpus, that the general
    contracts decide: which tier may ask which word, what a typed word pair
    parses to, and how duplicate headwords are offered for removal. */
module Scenarios {
  import opened Wrappers
  import opened Text
  import opened Tiers
  import opened Vocabulary
  import opened WordEntry
  import opened Bot

  /** Three rows of the seed corpus, with the ids their insertion order gives
      them, one per kind of category. */
  const Red: CommonWord := CommonWord(1, "red", "красный", Some("цвет"))
  const Cat: CommonWord := CommonWord(31, "cat", "кошка", Some("животное"))
  const Abundance: CommonWord := CommonWord(59, "abundance", "изобилие", Some("сложное"))
  /** A row without a category, which the seed list does not have but the
      schema allows, with the next id. */
  const Untagged: CommonWord := CommonWord(65, "tree", "дерево", None)

  const Sample: seq<CommonWord> := [Red, Cat, Abundance, Untagged]

  /** What the pool query takes from one row at tier `t`. */
  function Kept(w: CommonWord, t: Tier): seq<Candidate> {
    if Allows(t, w.category) then [CommonCandidate(w)] else []
  }

  /** The pool query keeps a row exactly when the tier's filter allows its
      category, in table order. */
  lemma PoolStep(w: CommonWord, rest: seq<CommonWord>, t: Tier)
    ensures CommonPool([w] + rest, t) == Kept(w, t) + CommonPool(rest, t)
  {
    assert ([w] + rest)[1..] == rest;
  }

  /** The pool of four rows at tier `t`: the rows the filter allows, in order. */
  lemma PoolOfFour(a: CommonWord, b: CommonWord, c: CommonWord, d: CommonWord, t: Tier)
    ensures CommonPool([a, b, c, d], t) == Kept(a, t) + (Kept(b, t) + (Kept(c, t) + Kept(d, t)))
  {
    var r3 := [d] + [];
    var r2 := [c] + r3;
    var r1 := [b] + r2;
    assert [a, b, c, d] == [a] + r1;
    PoolStep(d, [], t);
    assert CommonPool(r3, t) == Kept(d, t);
    PoolStep(c, r3, t);
    PoolStep(b, r2, t);
    PoolStep(a, r1, t);
  }

  lemma SamplePool(words: seq<CommonWord>, t: Tier)
    requires words == Sample
    ensures CommonPool(words, t) == Kept(Red, t) + (Kept(Cat, t) + (Kept(Abundance, t) + Kept(Untagged, t)))
  {
    PoolOfFour(Red, Cat, Abundance, Untagged, t);
  }

  /** Easy asks only the colour. */
  lemma EasyPoolOfSample(words: seq<CommonWord>)
    requires words == Sample
    ensures CommonPool(words, Easy) == [CommonCandidate(Red)]
  {
    SamplePool(words, Easy);
    assert Kept(Red, Easy) == [CommonCandidate(Red)];
    assert Kept(Cat, Easy) == [] && Kept(Abundance, Easy) == [] && Kept(Untagged, Easy) == [];
  }

  /** Medium asks everything but the difficult word, untagged words included. */
  lemma MediumPoolOfSample(words: seq<CommonWord>)
    requires words == Sample
    ensures CommonPool(words, Medium) == [CommonCandidate(Red), CommonCandidate(Cat), CommonCandidate(Untagged)]
  {
    SamplePool(words, Medium);
    var a, b, d := CommonCandidate(Red), CommonCandidate(Cat), CommonCandidate(Untagged);
    assert Kept(Red, Medium) == [a] && Kept(Cat, Medium) == [b] && Kept(Untagged, Medium) == [d];
    assert Kept(Abundance, Medium) == [];
    assert [a] + ([b] + ([] + [d])) == [a, b, d];
  }

  /** Hard asks everything. */
  lemma HardPoolOfSample(words: seq<CommonWord>)
    requires words == Sample
    ensures CommonPool(words, Hard) == [CommonCandidate(Red), CommonCandidate(Cat), CommonCandidate(Abundance), CommonCandidate(Untagged)]
  {
    SamplePool(words, Hard);
    var a, b, c, d := CommonCandidate(Red), CommonCandidate(Cat), CommonCandidate(Abundance), CommonCandidate(Untagged);
    assert Kept(Red, Hard) == [a] && Kept(Cat, Hard) == [b] && Kept(Abundance, Hard) == [c] && Kept(Untagged, Hard) == [d];
    assert [a] + ([b] + ([c] + [d])) == [a, b, c, d];
  }

  /** One correct answer out of two gives 50 %. */
  lemma HalfRight()
    ensures Accuracy(1, 2) == 50.0
  {
  }

  /** A spaced pair parses to its two sides. */
  lemma ParsesSpacedPair(text: string)
    requires text == " Apple - Яблоко "
    ensures ParseWordPair(text) == Ok(("Apple", "Яблоко"))
  {
    var english, russian, pad := "Apple", "Яблоко", " ";
    assert IsStripped(english) && IsStripped(russian) && Dash !in english;
    assert text == pad + english + pad + [Dash] + pad + russian + pad;
    FormatRoundTrip(english, russian, pad, pad, pad, pad);
  }

  /** Only the first dash separates: the others stay in the translation. */
  lemma SecondDashStaysInTranslation(text: string)
    requires text == "e-mail - эл-почта"
    ensures ParseWordPair(text) == Ok(("e", "mail - эл-почта"))
  {
    var english, russian := "e", "mail - эл-почта";
    assert IsStripped(english) && IsStripped(russian) && Dash !in english;
    assert text == [] + english + [] + [Dash] + [] + russian + [];
    FormatRoundTrip(english, russian, [], [], [], []);
  }

  /** Two rows with the same headword: the removal menu offers the headword
      once, for the row that came last. */
  lemma DuplicateHeadwordKeepsLastId(m: map<string, Serial>, uid: UserId)
    requires IsWordMap(m, [UserWord(3, uid, "cat", "кошка", true), UserWord(7, uid, "cat", "кот", true)])
    ensures m == map["cat" := 7]
  {
    var rows := [UserWord(3, uid, "cat", "кошка", true), UserWord(7, uid, "cat", "кот", true)];
    assert rows[..1] == [rows[0]];
    assert LastIndexOf(rows, "cat") == 1;
    assert m.Keys == {"cat"} by {
      assert forall w :: w in rows ==> w.english == "cat";
      assert rows[0] in rows;
    }
  }

  /** A lower-cased headword is never the main-menu button, whose text has a
      capital letter, so a removal reply is never taken for a cancel. */
  lemma LoweredIsNotMainMenu(s: string)
    ensures Lower(s) != MainMenu
  {
    assert IsUpper(MainMenu[2]);
  }

  /** A pair typed the way the prompt shows it parses to its two sides. */
  lemma TypedPairParses(english: string, russian: string)
    requires english != [] && russian != [] && IsStripped(english) && IsStripped(russian)
    requires Dash !in english
    ensures ParseWordPair(english + " - " + russian) == Ok((english, russian))
  {
    assert english + " - " + russian == [] + english + " " + [Dash] + " " + russian + [];
    assert AllSpace(" ") by { assert IsSpace(' '); }
    FormatRoundTrip(english, russian, [], " ", " ", []);
  }
}
