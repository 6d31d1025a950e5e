/** The rows of the store's tables and the queries the handlers run on them:
    the candidate pools of a quiz question, the distractor pool, the counts
    behind the statistics, the soft-delete update and the signed word reference
    of the answer history. */
module Vocabulary {
  import opened Wrappers
  import opened Tiers

  /** Telegram user id (`users.user_id`, BIGINT). */
  type UserId = int

  /** A value of a SERIAL primary key: PostgreSQL sequences start at 1. */
  type Serial = x: int | 1 <= x witness 1

  /** `VARCHAR(100)`: the longest word or translation a row can hold. */
  const MaxWordLength: nat := 100

  /** A row of `common_words`, the shared corpus. */
  datatype CommonWord = CommonWord(id: Serial, english: string, translation: string, category: Option<string>)

  /** A row of `user_words`, a personal dictionary entry. */
  datatype UserWord = UserWord(id: Serial, owner: UserId, english: string, translation: string, active: bool)

  /** A row of `user_stats`: one answered question. */
  datatype AnswerEvent = AnswerEvent(user: UserId, wordRef: int, correct: bool)

  /** The `source` column of the quiz query: which table a question word comes from. */
  datatype Source = Common | Personal

  /** A row of the quiz query: source, id, headword and translation. */
  datatype Candidate = Candidate(source: Source, id: Serial, english: string, translation: string)

  /* ---------------------------------------------------------------------- */
  /* Signed word reference of `user_stats.word_id`                           */

  /** `word_id` for a common word, `-word_id` for a personal one. */
  function EncodeRef(source: Source, id: Serial): (r: int)
    ensures r != 0
    ensures r > 0 <==> source == Common
    ensures r == id as int || r == -(id as int)
  {
    if source == Common then id as int else -(id as int)
  }

  /** Reads a `user_stats.word_id` back as the table and id it refers to. */
  function DecodeRef(r: int): (d: Option<(Source, Serial)>)
    ensures d.None? <==> r == 0
    ensures d.Some? ==> (d.value.0 == Common <==> r > 0)
  {
    if r > 0 then Some((Common, r)) else if r < 0 then Some((Personal, -r)) else None
  }

  /** Decoding inverts encoding: since SERIAL ids start at 1, the sign tells the
      two id spaces apart. */
  lemma RefRoundTrip(source: Source, id: Serial, r: int)
    ensures DecodeRef(EncodeRef(source, id)) == Some((source, id))
    ensures DecodeRef(r).Some? ==> EncodeRef(DecodeRef(r).value.0, DecodeRef(r).value.1) == r
  {
  }

  /** The encoding is injective over (source, id) pairs. */
  lemma EncodeRefInjective(s1: Source, id1: Serial, s2: Source, id2: Serial)
    ensures EncodeRef(s1, id1) == EncodeRef(s2, id2) <==> (s1 == s2 && id1 == id2)
  {
    RefRoundTrip(s1, id1, 0);
    RefRoundTrip(s2, id2, 0);
  }

  /* ---------------------------------------------------------------------- */
  /* Candidate pools of a question                                           */

  function CommonCandidate(w: CommonWord): Candidate {
    Candidate(Common, w.id, w.english, w.translation)
  }

  function PersonalCandidate(w: UserWord): Candidate {
    Candidate(Personal, w.id, w.english, w.translation)
  }

  /** `SELECT 'common', word_id, english_word, russian_translation FROM common_words
      WHERE <tier filter>`, in table order. */
  function CommonPool(words: seq<CommonWord>, t: Tier): (r: seq<Candidate>)
    ensures |r| <= |words|
    ensures forall i :: 0 <= i < |words| && Allows(t, words[i].category) ==> CommonCandidate(words[i]) in r
    ensures forall c :: c in r ==>
      c.source == Common && exists i :: 0 <= i < |words| && Allows(t, words[i].category) && c == CommonCandidate(words[i])
  {
    if words == [] then []
    else
      var rest := CommonPool(words[1..], t);
      assert forall i :: 1 <= i < |words| ==> words[i] == words[1..][i - 1];
      if Allows(t, words[0].category) then [CommonCandidate(words[0])] + rest else rest
  }

  /** The rows of `user_words WHERE user_id = uid AND is_active = TRUE`, in table order. */
  function ActiveRows(rows: seq<UserWord>, uid: UserId): (r: seq<UserWord>)
    ensures |r| <= |rows|
    ensures forall w :: w in r <==> w in rows && w.owner == uid && w.active
  {
    if rows == [] then []
    else
      var rest := ActiveRows(rows[1..], uid);
      assert forall w :: w in rows <==> w == rows[0] || w in rows[1..];
      if rows[0].owner == uid && rows[0].active then [rows[0]] + rest else rest
  }

  /** `SELECT 'user', user_word_id, english_word, russian_translation FROM user_words
      WHERE user_id = uid AND is_active = TRUE`: a personal word is eligible at
      every tier. */
  function PersonalPool(rows: seq<UserWord>, uid: UserId): (r: seq<Candidate>)
    ensures |r| == |ActiveRows(rows, uid)|
    ensures forall c :: c in r <==>
      c.source == Personal && exists w :: w in rows && w.owner == uid && w.active && c == PersonalCandidate(w)
  {
    var act := ActiveRows(rows, uid);
    var r := seq(|act|, i requires 0 <= i < |act| => PersonalCandidate(act[i]));
    assert forall w :: w in act ==> PersonalCandidate(w) in r by {
      forall w | w in act ensures PersonalCandidate(w) in r {
        var i :| 0 <= i < |act| && act[i] == w;
        assert r[i] == PersonalCandidate(w);
      }
    }
    r
  }

  /** The `russian_translation` column of a list of corpus rows, one entry per row. */
  function TranslationsOf(words: seq<CommonWord>): (r: seq<string>)
    ensures |r| == |words|
  {
    if words == [] then [] else [words[0].translation] + TranslationsOf(words[1..])
  }

  /** The `russian_translation` column of the user's active rows, one entry per row. */
  function ActiveTranslations(rows: seq<UserWord>, uid: UserId): (r: seq<string>)
    ensures |r| == |ActiveRows(rows, uid)|
  {
    if rows == [] then []
    else (if rows[0].owner == uid && rows[0].active then [rows[0].translation] else []) + ActiveTranslations(rows[1..], uid)
  }

  /** The translations the wrong options are drawn from: every common word's and
      the user's active words' translations that differ from `correct`. The query
      uses UNION ALL, so each qualifying row adds one entry and a translation may
      occur more than once. */
  function DistractorPool(words: seq<CommonWord>, rows: seq<UserWord>, uid: UserId, correct: string): (r: seq<string>)
    ensures correct !in r
    ensures forall x :: x in r <==>
      x != correct && ((exists w :: w in words && w.translation == x) || (exists w :: w in rows && w.owner == uid && w.active && w.translation == x))
    ensures multiset(r) == multiset(TranslationsOf(words))[correct := 0] + multiset(ActiveTranslations(rows, uid))[correct := 0]
  {
    CommonTranslationsMultiset(words, correct);
    PersonalTranslationsMultiset(rows, uid, correct);
    CommonTranslations(words, correct) + PersonalTranslations(rows, uid, correct)
  }

  /** `SELECT russian_translation FROM common_words WHERE russian_translation != correct`:
      one entry per corpus row whose translation differs. */
  function CommonTranslations(words: seq<CommonWord>, correct: string): (r: seq<string>)
    ensures forall x :: x in r <==> x != correct && exists w :: w in words && w.translation == x
  {
    if words == [] then []
    else
      var rest := CommonTranslations(words[1..], correct);
      assert forall w :: w in words <==> w == words[0] || w in words[1..];
      if words[0].translation != correct then [words[0].translation] + rest else rest
  }

  /** `SELECT russian_translation FROM user_words WHERE user_id = uid AND
      is_active = TRUE AND russian_translation != correct`: one entry per
      qualifying row. */
  function PersonalTranslations(rows: seq<UserWord>, uid: UserId, correct: string): (r: seq<string>)
    ensures forall x :: x in r <==> x != correct && exists w :: w in rows && w.owner == uid && w.active && w.translation == x
  {
    if rows == [] then []
    else
      var rest := PersonalTranslations(rows[1..], uid, correct);
      assert forall w :: w in rows <==> w == rows[0] || w in rows[1..];
      var w := rows[0];
      if w.owner == uid && w.active && w.translation != correct then [w.translation] + rest else rest
  }

  /** The corpus part of the pool is the translation column with every copy of
      the correct translation removed: one entry per corpus row that differs. */
  lemma {:induction false} CommonTranslationsMultiset(words: seq<CommonWord>, correct: string)
    ensures multiset(CommonTranslations(words, correct)) == multiset(TranslationsOf(words))[correct := 0]
  {
    if words != [] {
      CommonTranslationsMultiset(words[1..], correct);
      DropCorrectCons(words[0].translation, TranslationsOf(words[1..]), correct);
    }
  }

  /** The personal part of the pool is the translation column of the user's
      active rows with every copy of the correct translation removed. */
  lemma {:induction false} PersonalTranslationsMultiset(rows: seq<UserWord>, uid: UserId, correct: string)
    ensures multiset(PersonalTranslations(rows, uid, correct)) == multiset(ActiveTranslations(rows, uid))[correct := 0]
  {
    if rows != [] {
      PersonalTranslationsMultiset(rows[1..], uid, correct);
      var w := rows[0];
      if w.owner == uid && w.active {
        PersonalTranslationsActiveStep(rows, uid, correct);
      } else {
        assert ActiveTranslations(rows, uid) == ActiveTranslations(rows[1..], uid);
        assert PersonalTranslations(rows, uid, correct) == PersonalTranslations(rows[1..], uid, correct);
      }
    }
  }

  /** One step of the induction above, for a first row that is active and the user's. */
  lemma PersonalTranslationsActiveStep(rows: seq<UserWord>, uid: UserId, correct: string)
    requires rows != [] && rows[0].owner == uid && rows[0].active
    requires multiset(PersonalTranslations(rows[1..], uid, correct)) == multiset(ActiveTranslations(rows[1..], uid))[correct := 0]
    ensures multiset(PersonalTranslations(rows, uid, correct)) == multiset(ActiveTranslations(rows, uid))[correct := 0]
  {
    var x := rows[0].translation;
    var col := ActiveTranslations(rows[1..], uid);
    assert ActiveTranslations(rows, uid) == [x] + col;
    DropCorrectCons(x, col, correct);
  }


  /** Dropping the correct translation from a column that starts with `x`. */
  lemma DropCorrectCons(x: string, s: seq<string>, correct: string)
    ensures multiset([x] + s)[correct := 0] ==
      if x == correct then multiset(s)[correct := 0] else multiset(s)[correct := 0] + multiset{x}
  {
    assert multiset([x] + s) == multiset(s) + multiset{x};
  }

  /** The corpus part of the pool has one entry for each corpus row, less the
      rows translated as the correct option. */
  lemma {:induction false} CommonTranslationsSize(words: seq<CommonWord>, correct: string)
    ensures |CommonTranslations(words, correct)| + multiset(TranslationsOf(words))[correct] == |words|
  {
    if words != [] {
      CommonTranslationsSize(words[1..], correct);
    }
  }

  /** The personal part of the pool has one entry for each active row of the
      user, less the rows translated as the correct option. */
  lemma {:induction false} PersonalTranslationsSize(rows: seq<UserWord>, uid: UserId, correct: string)
    ensures |PersonalTranslations(rows, uid, correct)| + multiset(ActiveTranslations(rows, uid))[correct] == |ActiveRows(rows, uid)|
  {
    if rows != [] {
      PersonalTranslationsSize(rows[1..], uid, correct);
    }
  }

  /** The wrong-option pool has one entry per corpus row and per active row of
      the user, less the rows translated as the correct option. */
  lemma DistractorPoolSize(words: seq<CommonWord>, rows: seq<UserWord>, uid: UserId, correct: string)
    ensures |DistractorPool(words, rows, uid, correct)| +
      multiset(TranslationsOf(words))[correct] + multiset(ActiveTranslations(rows, uid))[correct]
      == |words| + |ActiveRows(rows, uid)|
  {
    CommonTranslationsSize(words, correct);
    PersonalTranslationsSize(rows, uid, correct);
  }

  /* ---------------------------------------------------------------------- */
  /* Counts                                                                  */

  /** `SELECT COUNT(*) FROM user_words WHERE user_id = uid AND is_active = TRUE`. */
  function ActiveCount(rows: seq<UserWord>, uid: UserId): (n: nat)
    ensures n <= |rows|
  {
    if rows == [] then 0
    else (if rows[0].owner == uid && rows[0].active then 1 else 0) + ActiveCount(rows[1..], uid)
  }

  /** The active count is zero exactly when the user has no active row. */
  lemma {:induction false} ActiveCountZero(rows: seq<UserWord>, uid: UserId)
    ensures ActiveCount(rows, uid) == 0 <==> forall w :: w in rows ==> !(w.owner == uid && w.active)
  {
    if rows != [] {
      ActiveCountZero(rows[1..], uid);
      assert forall w :: w in rows <==> w == rows[0] || w in rows[1..];
    }
  }

  /** `SELECT COUNT(*) FROM user_stats WHERE user_id = uid AND is_correct = TRUE`. */
  function CorrectCount(events: seq<AnswerEvent>, uid: UserId): (n: nat)
    ensures n <= |events|
  {
    if events == [] then 0
    else (if events[0].user == uid && events[0].correct then 1 else 0) + CorrectCount(events[1..], uid)
  }

  /** `SELECT COUNT(*) FROM user_stats WHERE user_id = uid`. */
  function AnswerCount(events: seq<AnswerEvent>, uid: UserId): (n: nat)
    ensures n <= |events|
  {
    if events == [] then 0
    else (if events[0].user == uid then 1 else 0) + AnswerCount(events[1..], uid)
  }

  /** No answer is counted exactly when the user has answered nothing, and no
      correct answer exactly when none of their answers was right. */
  lemma {:induction false} AnswerCountsZero(events: seq<AnswerEvent>, uid: UserId)
    ensures AnswerCount(events, uid) == 0 <==> forall e :: e in events ==> e.user != uid
    ensures CorrectCount(events, uid) == 0 <==> forall e :: e in events ==> !(e.user == uid && e.correct)
  {
    if events != [] {
      AnswerCountsZero(events[1..], uid);
      assert forall e :: e in events <==> e == events[0] || e in events[1..];
    }
  }

  /** The active count is the number of active rows the removal menu offers. */
  lemma {:induction false} ActiveCountIsRows(rows: seq<UserWord>, uid: UserId)
    ensures ActiveCount(rows, uid) == |ActiveRows(rows, uid)|
  {
    if rows != [] {
      ActiveCountIsRows(rows[1..], uid);
    }
  }

  /** The correct answers are among the answers: the first count filters the
      rows of the second. */
  lemma {:induction false} CorrectAtMostAnswered(events: seq<AnswerEvent>, uid: UserId)
    ensures CorrectCount(events, uid) <= AnswerCount(events, uid)
  {
    if events != [] {
      CorrectAtMostAnswered(events[1..], uid);
    }
  }

  /** Appending a row adds one to the active count exactly when it is an active
      row of that user. */
  lemma {:induction false} ActiveCountAppend(rows: seq<UserWord>, w: UserWord, uid: UserId)
    ensures ActiveCount(rows + [w], uid) == ActiveCount(rows, uid) + (if w.owner == uid && w.active then 1 else 0)
  {
    if rows != [] {
      assert (rows + [w])[1..] == rows[1..] + [w];
      ActiveCountAppend(rows[1..], w, uid);
    }
  }

  /** Appending an event adds one answer for its user, and one correct answer
      when it is correct. */
  lemma {:induction false} AnswerCountsAppend(events: seq<AnswerEvent>, e: AnswerEvent, uid: UserId)
    ensures AnswerCount(events + [e], uid) == AnswerCount(events, uid) + (if e.user == uid then 1 else 0)
    ensures CorrectCount(events + [e], uid) == CorrectCount(events, uid) + (if e.user == uid && e.correct then 1 else 0)
  {
    if events != [] {
      assert (events + [e])[1..] == events[1..] + [e];
      AnswerCountsAppend(events[1..], e, uid);
    }
  }

  /* ---------------------------------------------------------------------- */
  /* Soft delete                                                             */

  /** The ids of a table's rows are distinct (the SERIAL primary key). */
  predicate DistinctIds(rows: seq<UserWord>) {
    forall i, j :: 0 <= i < j < |rows| ==> rows[i].id != rows[j].id
  }

  /** Whether `user_words` holds an active row with this id owned by this user. */
  predicate HasActive(rows: seq<UserWord>, id: Serial, uid: UserId) {
    exists w :: w in rows && w.id == id && w.owner == uid && w.active
  }

  /** `UPDATE user_words SET is_active = FALSE WHERE user_word_id = id AND
      user_id = uid`: no row is removed and only the matching row changes. */
  function Deactivate(rows: seq<UserWord>, id: Serial, uid: UserId): (r: seq<UserWord>)
    ensures |r| == |rows|
    ensures forall i :: 0 <= i < |rows| ==>
      r[i] == if rows[i].id == id && rows[i].owner == uid then rows[i].(active := false) else rows[i]
  {
    if rows == [] then []
    else
      var w := rows[0];
      [if w.id == id && w.owner == uid then w.(active := false) else w] + Deactivate(rows[1..], id, uid)
  }

  /** Soft delete lowers the user's active count by one when the row was
      active, and leaves it unchanged otherwise. */
  lemma {:induction false} DeactivateCount(rows: seq<UserWord>, id: Serial, uid: UserId)
    requires DistinctIds(rows)
    ensures ActiveCount(Deactivate(rows, id, uid), uid) == ActiveCount(rows, uid) - (if HasActive(rows, id, uid) then 1 else 0)
  {
    if rows != [] {
      var w := rows[0];
      var d := Deactivate(rows, id, uid);
      assert d[1..] == Deactivate(rows[1..], id, uid);
      DeactivateCount(rows[1..], id, uid);
      if w.id == id && w.owner == uid {
        assert !HasActive(rows[1..], id, uid) by {
          forall v | v in rows[1..] ensures v.id != id {
            var j :| 0 <= j < |rows[1..]| && rows[1..][j] == v;
            assert rows[j + 1] == v;
          }
        }
      }
      assert HasActive(rows, id, uid) <==> (w.id == id && w.owner == uid && w.active) || HasActive(rows[1..], id, uid) by {
        assert forall v :: v in rows <==> v == w || v in rows[1..];
      }
    }
  }

  /** Soft delete does not change the headword, translation, owner or id of any
      row, so every answer event keeps referring to an existing row. */
  lemma DeactivateKeepsRows(rows: seq<UserWord>, id: Serial, uid: UserId, i: nat)
    requires i < |rows|
    ensures Deactivate(rows, id, uid)[i].(active := true) == rows[i].(active := true)
  {
  }

  /* ---------------------------------------------------------------------- */
  /* Accuracy                                                                */

  /** `correct_answers / total_answers * 100 if total_answers > 0 else 0`, as an
      exact rational. */
  function Accuracy(correct: nat, total: nat): (a: real)
    ensures total == 0 ==> a == 0.0
    ensures total > 0 ==> a * (total as real) == (correct as real) * 100.0
    ensures correct <= total ==> 0.0 <= a <= 100.0
  {
    if total > 0 then (correct as real) / (total as real) * 100.0 else 0.0
  }
}
