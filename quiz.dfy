/** Question and option construction. `ORDER BY RANDOM() LIMIT n` is modelled
    as the choice of any `min(n, |pool|)` rows of the pool, and `random.shuffle`
    as the choice of any permutation; which choice is made is left open. */
module Quiz {
  import opened Wrappers
  import opened Vocabulary

  /** How many wrong options a question asks for (`LIMIT 3`). */
  const WrongOptionCount: nat := 3

  /** What `SELECT ... ORDER BY RANDOM() LIMIT limit` may return from `pool`:
      exactly `min(limit, |pool|)` of its rows, each row at most as often as it
      occurs in the pool, in any order. */
  predicate IsSample<T(==)>(sample: seq<T>, pool: seq<T>, limit: nat) {
    |sample| == Min(limit, |pool|) && multiset(sample) <= multiset(pool)
  }

  /** The first rows of the pool are one possible sample. */
  lemma PrefixIsSample<T>(pool: seq<T>, limit: nat)
    ensures IsSample(pool[..Min(limit, |pool|)], pool, limit)
  {
    var k := Min(limit, |pool|);
    assert pool == pool[..k] + pool[k..];
    assert multiset(pool) == multiset(pool[..k]) + multiset(pool[k..]);
  }

  /** Everything a sample holds comes from the pool. */
  lemma {:induction false} SampleFromPool<T>(sample: seq<T>, pool: seq<T>, limit: nat, x: T)
    requires IsSample(sample, pool, limit)
    requires x in sample
    ensures x in pool
  {
    assert multiset(sample)[x] > 0;
    assert multiset(pool)[x] > 0;
  }

  /** `ORDER BY RANDOM() LIMIT limit` over `pool`. */
  method DrawSample<T(==)>(pool: seq<T>, limit: nat) returns (sample: seq<T>)
    ensures IsSample(sample, pool, limit)
  {
    PrefixIsSample(pool, limit);
    sample :| IsSample(sample, pool, limit);
  }

  /** `ORDER BY RANDOM() LIMIT 1` followed by `fetchone()`: no row on an empty
      input, otherwise one of its rows. */
  method DrawOne<T(==)>(rows: seq<T>) returns (r: Option<T>)
    ensures r.None? <==> rows == []
    ensures r.Some? ==> r.value in rows
  {
    if rows == [] {
      r := None;
    } else {
      var i :| 0 <= i < |rows|;
      r := Some(rows[i]);
    }
  }

  /** `random.shuffle(options)`. */
  method Shuffle<T(==)>(s: seq<T>) returns (r: seq<T>)
    ensures multiset(r) == multiset(s)
  {
    r :| multiset(r) == multiset(s);
  }

  /** What the options of a question may be: the correct translation together
      with a sample of at most three wrong translations of the distractor pool,
      in any order. */
  ghost predicate IsOptionList(options: seq<string>, correct: string, pool: seq<string>) {
    exists wrong :: IsSample(wrong, pool, WrongOptionCount) && multiset(options) == multiset([correct] + wrong)
  }

  /** Every option is the correct translation or a translation of the
      distractor pool; the correct one appears exactly once and there are at most
      four. */
  lemma {:induction false} OptionsInvariant(options: seq<string>, correct: string, pool: seq<string>)
    requires correct !in pool
    requires IsOptionList(options, correct, pool)
    ensures |options| == 1 + Min(WrongOptionCount, |pool|) <= 4
    ensures multiset(options)[correct] == 1
    ensures forall o :: o in options ==> o == correct || o in pool
  {
    var wrong :| IsSample(wrong, pool, WrongOptionCount) && multiset(options) == multiset([correct] + wrong);
    assert |options| == |multiset(options)| == |[correct] + wrong|;
    assert multiset(wrong)[correct] == 0 by {
      assert multiset(wrong)[correct] <= multiset(pool)[correct];
    }
    forall o | o in options ensures o == correct || o in pool {
      assert multiset(options)[o] > 0;
      if o != correct {
        assert multiset(wrong)[o] > 0;
        assert multiset(pool)[o] > 0;
      }
    }
  }

  /** A question gets four options, as the docstring of `start_quiz` promises,
      exactly when at least three rows of the corpus and of the user's active
      words carry a translation other than the correct one. */
  lemma {:induction false} FourOptions(words: seq<CommonWord>, rows: seq<UserWord>, uid: UserId, correct: string, options: seq<string>)
    requires IsOptionList(options, correct, DistractorPool(words, rows, uid, correct))
    ensures |options| == 4 <==>
      multiset(TranslationsOf(words))[correct] + multiset(ActiveTranslations(rows, uid))[correct] + 3
        <= |words| + |ActiveRows(rows, uid)|
    ensures multiset(options)[correct] == 1
  {
    DistractorPoolSize(words, rows, uid, correct);
    OptionsInvariant(options, correct, DistractorPool(words, rows, uid, correct));
  }

  /** Builds the options of a question whose correct translation is `correct`:
      draws the wrong options and shuffles them with the correct one. */
  method BuildOptions(correct: string, pool: seq<string>) returns (options: seq<string>)
    requires correct !in pool
    ensures IsOptionList(options, correct, pool)
    ensures multiset(options)[correct] == 1 && |options| <= 4
  {
    var wrong := DrawSample(pool, WrongOptionCount);
    options := Shuffle([correct] + wrong);
    OptionsInvariant(options, correct, pool);
  }

  /** The wrong options need not differ from each other: when a corpus word
      and one of the user's active words share a translation, the wrong-option
      pool holds it twice and both copies can be offered. */
  lemma WrongOptionsMayRepeat(w: CommonWord, v: UserWord, correct: string)
    requires v.active && v.translation == w.translation && w.translation != correct
    ensures DistractorPool([w], [v], v.owner, correct) == [w.translation, w.translation]
    ensures IsOptionList([correct, w.translation, w.translation], correct, DistractorPool([w], [v], v.owner, correct))
  {
    assert [w][1..] == [] && [v][1..] == [];
    assert CommonTranslations([w], correct) == [w.translation] + CommonTranslations([], correct);
    assert PersonalTranslations([v], v.owner, correct) == [v.translation] + PersonalTranslations([], v.owner, correct);
    var pool := DistractorPool([w], [v], v.owner, correct);
    assert pool == [w.translation] + [v.translation];
    assert IsSample(pool, pool, WrongOptionCount);
    assert [correct, w.translation, w.translation] == [correct] + pool;
  }

  /** Rows are counted, not translations: three corpus rows sharing one wrong
      translation put it into the wrong-option pool three times. */
  lemma SharedTranslationPool(w1: CommonWord, w2: CommonWord, w3: CommonWord, uid: UserId, correct: string)
    requires w1.translation == w2.translation == w3.translation != correct
    ensures DistractorPool([w1, w2, w3], [], uid, correct) == [w1.translation, w1.translation, w1.translation]
  {
    var t := w1.translation;
    assert [w1, w2, w3][1..] == [w2, w3] && [w2, w3][1..] == [w3] && [w3][1..] == [];
    assert CommonTranslations([w3], correct) == [t];
    assert CommonTranslations([w2, w3], correct) == [t, t];
    assert CommonTranslations([w1, w2, w3], correct) == [t, t, t];
  }

  /** Three corpus rows sharing one wrong translation fill all three wrong
      options of the question with it. */
  lemma SharedTranslationFillsOptions(w1: CommonWord, w2: CommonWord, w3: CommonWord, uid: UserId, correct: string, options: seq<string>)
    requires w1.translation == w2.translation == w3.translation != correct
    requires IsOptionList(options, correct, DistractorPool([w1, w2, w3], [], uid, correct))
    ensures |options| == 4
    ensures multiset(options) == multiset{correct, w1.translation, w1.translation, w1.translation}
  {
    var t := w1.translation;
    SharedTranslationPool(w1, w2, w3, uid, correct);
    RepeatedOptions(options, correct, t);
  }

  /** Option lists drawn from a pool of three equal translations. */
  lemma RepeatedOptions(options: seq<string>, correct: string, t: string)
    requires IsOptionList(options, correct, [t, t, t])
    ensures |options| == 4
    ensures multiset(options) == multiset{correct, t, t, t}
  {
    var wrong :| IsSample(wrong, [t, t, t], WrongOptionCount) && multiset(options) == multiset([correct] + wrong);
    SampleOfRepeated(wrong, t);
  }

  /** The only sample of three rows from three equal rows is all of them. */
  lemma SampleOfRepeated(wrong: seq<string>, t: string)
    requires IsSample(wrong, [t, t, t], WrongOptionCount)
    ensures wrong == [t, t, t]
  {
    forall i | 0 <= i < |wrong| ensures wrong[i] == t {
      assert multiset(wrong)[wrong[i]] > 0;
    }
  }
}
