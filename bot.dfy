/** The handlers of the bot, with the transport taken out: each one reads or
    updates the store's tables in one step and returns what the user is told.
    The tables are the fields of `Store`; the store's SERIAL counter for
    `user_words` is `nextUserWordId`. */
module Bot {
  import opened Wrappers
  import opened Text
  import opened Tiers
  import opened Vocabulary
  import opened Quiz
  import opened Chunking
  import opened WordEntry

  /** The text of the "main menu" button, which cancels a pending question or
      removal. */
  const MainMenu: string := "🔙 Главное меню"

  /** The size limit `show_my_words` packs its messages to. */
  const MaxMessageLength: nat := 3000

  /** The first line of the dictionary listing. */
  const DictionaryHeader: string := "📚 <b>Твой словарь:</b>\n"

  /** How `show_my_words` shows one entry: `f"• {en_word} - {ru_word}"`. */
  function DisplayLine(w: UserWord): (line: string)
    ensures |line| == |w.english| + |w.translation| + 5
  {
    "• " + w.english + " - " + w.translation
  }

  function DisplayLines(rows: seq<UserWord>): (lines: seq<string>)
    ensures |lines| == |rows|
    ensures forall i :: 0 <= i < |rows| ==> lines[i] == DisplayLine(rows[i])
  {
    seq(|rows|, i requires 0 <= i < |rows| => DisplayLine(rows[i]))
  }

  /** A question put to the user: the tier it was drawn at, the word (its
      source, id, headword and correct translation) and the answer buttons. */
  datatype Question = Question(tier: Tier, word: Candidate, options: seq<string>)

  /** What `start_quiz` ends with. */
  datatype QuizResult =
    | Asked(question: Question)
    | NoWordsAvailable
    | UnknownTier(stored: string)

  /** What `check_quiz_answer` tells the user. */
  datatype AnswerResult = Cancelled | Answered(correct: bool)

  /** What `process_new_word` tells the user. */
  datatype AddResult = InvalidFormat(reason: ParseError) | StorageError | Added(english: string, count: nat)

  /** What `remove_word` offers: nothing, or the buttons with the headword to id
      map the reply is looked up in. */
  datatype RemoveMenu = NothingToRemove | Offer(words: map<string, Serial>)

  /** What `confirm_remove` tells the user. */
  datatype ConfirmResult = RemoveCancelled | NotFound | Removed(count: nat)

  /** What `show_stats` shows. */
  datatype StatsResult =
    | StatsUnknownTier(stored: string)
    | Stats(tier: Tier, words: nat, correct: nat, answered: nat, accuracy: real)

  /** What `show_my_words` sends: nothing but a notice, or the messages (each a
      group of lines joined with newlines) and the word count. */
  datatype ListResult = EmptyDictionary | Listing(messages: seq<seq<string>>, total: nat)

  /** What `set_difficulty_level` does with a message. */
  datatype TierChange = NotTierButton | TierSet(tier: Tier)

  /** Index of the last row with headword `h`, -1 when there is none. */
  function LastIndexOf(rows: seq<UserWord>, h: string): (i: int)
    ensures -1 <= i < |rows|
    ensures i >= 0 ==> rows[i].english == h && forall j :: i < j < |rows| ==> rows[j].english != h
    ensures i == -1 ==> forall j :: 0 <= j < |rows| ==> rows[j].english != h
  {
    if rows == [] then -1
    else if rows[|rows| - 1].english == h then |rows| - 1
    else LastIndexOf(rows[..|rows| - 1], h)
  }

  /** `word_dict` of `remove_word` for the rows its query returned: every
      headword maps to the id of the last row with that headword. */
  predicate IsWordMap(m: map<string, Serial>, rows: seq<UserWord>) {
    && m.Keys == (set w | w in rows :: w.english)
    && forall h :: h in m ==> 0 <= LastIndexOf(rows, h) && m[h] == rows[LastIndexOf(rows, h)].id
  }

  /** The loop of `remove_word` that fills `word_dict`. */
  method BuildWordMap(rows: seq<UserWord>) returns (m: map<string, Serial>)
    ensures IsWordMap(m, rows)
  {
    m := map[];
    var i := 0;
    while i < |rows|
      invariant 0 <= i <= |rows|
      invariant m.Keys == set w | w in rows[..i] :: w.english
      invariant forall h :: h in m ==> 0 <= LastIndexOf(rows[..i], h) && m[h] == rows[LastIndexOf(rows[..i], h)].id
    {
      var prefix := rows[..i + 1];
      assert prefix[..i] == rows[..i];
      assert forall w :: w in prefix <==> w in rows[..i] || w == rows[i];
      m := m[rows[i].english := rows[i].id];
      i := i + 1;
    }
    assert rows[..i] == rows;
  }

  /** The table invariants of `user_words`: ids are handed out in increasing
      order by the sequence, and every stored word fits its VARCHAR(100)
      column. */
  ghost predicate WellFormed(rows: seq<UserWord>, next: Serial) {
    && (forall i, j :: 0 <= i < j < |rows| ==> rows[i].id < rows[j].id)
    && (forall i :: 0 <= i < |rows| ==> rows[i].id < next)
    && (forall i :: 0 <= i < |rows| ==> |rows[i].english| <= MaxWordLength && |rows[i].translation| <= MaxWordLength)
  }

  /** Inserting a row that fits, under the sequence's next value, keeps the
      table well formed. */
  lemma InsertKeepsWellFormed(rows: seq<UserWord>, next: Serial, w: UserWord)
    requires WellFormed(rows, next)
    requires w.id == next && |w.english| <= MaxWordLength && |w.translation| <= MaxWordLength
    ensures WellFormed(rows + [w], next + 1)
  {
  }

  /** Soft delete keeps the table well formed. */
  lemma DeactivateKeepsWellFormed(rows: seq<UserWord>, next: Serial, id: Serial, uid: UserId)
    requires WellFormed(rows, next)
    ensures WellFormed(Deactivate(rows, id, uid), next)
  {
  }

  /** Well-formed rows have distinct ids. */
  lemma WellFormedDistinct(rows: seq<UserWord>, next: Serial)
    requires WellFormed(rows, next)
    ensures DistinctIds(rows)
  {
  }

  /** Adding a word and then removing it through the menu gives the user back
      the active count they had: the insert adds one active row under a fresh
      id, and the soft delete of that id clears exactly that row. */
  lemma {:induction false} AddThenRemoveRestoresCount(rows: seq<UserWord>, next: Serial, w: UserWord)
    requires WellFormed(rows, next)
    requires w.id == next && w.active && |w.english| <= MaxWordLength && |w.translation| <= MaxWordLength
    ensures ActiveCount(rows + [w], w.owner) == ActiveCount(rows, w.owner) + 1
    ensures ActiveCount(Deactivate(rows + [w], w.id, w.owner), w.owner) == ActiveCount(rows, w.owner)
  {
    ActiveCountAppend(rows, w, w.owner);
    InsertKeepsWellFormed(rows, next, w);
    WellFormedDistinct(rows + [w], next + 1);
    assert HasActive(rows + [w], w.id, w.owner) by {
      assert (rows + [w])[|rows|] == w;
    }
    DeactivateCount(rows + [w], w.id, w.owner);
  }

  class Store {
    /** `users`: each registered user's stored difficulty, NULL as None. */
    var users: map<UserId, Option<string>>
    /** `common_words`, seeded once and never changed by the handlers. */
    const commonWords: seq<CommonWord>
    /** `user_words`, in insertion order. */
    var userWords: seq<UserWord>
    /** `user_stats`, in insertion order. */
    var stats: seq<AnswerEvent>
    /** The next value of the SERIAL sequence of `user_words`. */
    var nextUserWordId: Serial

    /** The table invariants of `user_words`. */
    ghost predicate Valid()
      reads this
    {
      WellFormed(userWords, nextUserWordId)
    }

    constructor (seed: seq<CommonWord>, registered: map<UserId, Option<string>>)
      ensures Valid()
      ensures commonWords == seed && users == registered
      ensures userWords == [] && stats == [] && nextUserWordId == 1
    {
      commonWords := seed;
      users := registered;
      userWords := [];
      stats := [];
      nextUserWordId := 1;
    }

    /** `SELECT difficulty FROM users WHERE user_id = uid`, None for a missing
        row or a NULL. */
    function StoredTier(uid: UserId): (stored: Option<string>)
      reads this`users
      ensures stored.Some? ==> uid in users
    {
      if uid in users then users[uid] else None
    }

    /** The user's tier, None where looking it up raises KeyError. */
    function TierOf(uid: UserId): (t: Option<Tier>)
      reads this`users
      ensures uid !in users ==> t == Some(Medium)
    {
      ResolveStored(StoredTier(uid))
    }

    /** `start`: registers an unknown user with the default tier `medium`; a
        known user's row, and so their tier, is left as it is. */
    method Start(uid: UserId)
      modifies this`users
      ensures uid in users
      ensures users == if uid in old(users) then old(users) else old(users)[uid := Some(Key(Medium))]
      ensures uid !in old(users) ==> TierOf(uid) == Some(Medium)
    {
      if uid !in users {
        users := users[uid := Some(Key(Medium))];
        StoredKeyResolves(Medium);
      }
    }

    /** `start_quiz`: resolves the user's tier, draws up to `words_limit`
        candidates from each pool, picks the question word among them and builds
        its options. */
    method StartQuiz(uid: UserId) returns (result: QuizResult)
      ensures result.UnknownTier? <==> TierOf(uid).None?
      ensures result.UnknownTier? ==> StoredTier(uid) == Some(result.stored)
      ensures result.NoWordsAvailable? <==>
        TierOf(uid).Some? && CommonPool(commonWords, TierOf(uid).value) == [] && PersonalPool(userWords, uid) == []
      ensures result.Asked? ==>
        var q := result.question;
        && TierOf(uid) == Some(q.tier)
        && q.word in CommonPool(commonWords, q.tier) + PersonalPool(userWords, uid)
        && IsOptionList(q.options, q.word.translation, DistractorPool(commonWords, userWords, uid, q.word.translation))
        && multiset(q.options)[q.word.translation] == 1
        && |q.options| <= 4
    {
      var stored := StoredTier(uid);
      var tier := ResolveStored(stored);
      if tier.None? {
        return UnknownTier(stored.value);
      }
      var t := tier.value;
      var commonPool := CommonPool(commonWords, t);
      var personalPool := PersonalPool(userWords, uid);
      var shared := DrawSample(commonPool, WordsLimit(t));
      var personal := DrawSample(personalPool, WordsLimit(t));
      var drawn := DrawOne(shared + personal);
      if drawn.None? {
        return NoWordsAvailable;
      }
      var word := drawn.value;
      if word in shared {
        SampleFromPool(shared, commonPool, WordsLimit(t), word);
      } else {
        SampleFromPool(personal, personalPool, WordsLimit(t), word);
      }
      var correct := word.translation;
      var options := BuildOptions(correct, DistractorPool(commonWords, userWords, uid, correct));
      result := Asked(Question(t, word, options));
    }

    /** `check_quiz_answer`: the main-menu reply cancels the question; any other
        reply is scored by exact comparison and recorded under the signed word
        reference. The insert fails, and nothing is recorded, for a user without
        a `users` row; the user is told the outcome all the same. */
    method CheckQuizAnswer(uid: UserId, asked: Candidate, reply: string) returns (result: AnswerResult)
      modifies this`stats
      ensures reply == MainMenu ==> result == Cancelled && stats == old(stats)
      ensures reply != MainMenu ==> result == Answered(reply == asked.translation)
      ensures reply != MainMenu && uid in users ==>
        stats == old(stats) + [AnswerEvent(uid, EncodeRef(asked.source, asked.id), reply == asked.translation)]
      ensures reply != MainMenu && uid in users ==>
        && AnswerCount(stats, uid) == old(AnswerCount(stats, uid)) + 1
        && CorrectCount(stats, uid) == old(CorrectCount(stats, uid)) + (if reply == asked.translation then 1 else 0)
      ensures reply != MainMenu && uid !in users ==> stats == old(stats)
    {
      if reply == MainMenu {
        return Cancelled;
      }
      var isCorrect := reply == asked.translation;
      if uid in users {
        var event := AnswerEvent(uid, EncodeRef(asked.source, asked.id), isCorrect);
        AnswerCountsAppend(stats, event, uid);
        stats := stats + [event];
      }
      result := Answered(isCorrect);
    }

    /** Whether the INSERT of `process_new_word` succeeds: the user has a `users`
        row (foreign key) and both words fit VARCHAR(100). The words stored are
        the lower-cased ones, which have the same length. */
    predicate Insertable(uid: UserId, english: string, russian: string)
      reads this`users
    {
      uid in users && |english| <= MaxWordLength && |russian| <= MaxWordLength
    }

    /** `process_new_word`: parses the message and inserts an active row with
        both words lower-cased; the reply carries the new active count. */
    method ProcessNewWord(uid: UserId, text: string) returns (result: AddResult)
      requires Valid()
      modifies this`userWords, this`nextUserWordId
      ensures Valid()
      ensures ParseWordPair(text).Err? ==>
        result == InvalidFormat(ParseWordPair(text).error)
        && userWords == old(userWords) && nextUserWordId == old(nextUserWordId)
      ensures ParseWordPair(text).Ok? && !Insertable(uid, ParseWordPair(text).value.0, ParseWordPair(text).value.1) ==>
        result == StorageError && userWords == old(userWords) && nextUserWordId == old(nextUserWordId)
      ensures ParseWordPair(text).Ok? && Insertable(uid, ParseWordPair(text).value.0, ParseWordPair(text).value.1) ==>
        var pair := ParseWordPair(text).value;
        && userWords == old(userWords) + [UserWord(old(nextUserWordId), uid, Lower(pair.0), Lower(pair.1), true)]
        && nextUserWordId == old(nextUserWordId) + 1
        && result == Added(pair.0, ActiveCount(userWords, uid))
        && ActiveCount(userWords, uid) == old(ActiveCount(userWords, uid)) + 1
    {
      var parsed := ParseWordPair(text);
      if parsed.Err? {
        return InvalidFormat(parsed.error);
      }
      result := InsertWord(uid, parsed.value.0, parsed.value.1);
    }

    /** The database half of `process_new_word`: the INSERT of the lower-cased
        pair as an active row, then the count of the user's active words. */
    method InsertWord(uid: UserId, english: string, russian: string) returns (result: AddResult)
      requires Valid()
      modifies this`userWords, this`nextUserWordId
      ensures Valid()
      ensures !Insertable(uid, english, russian) ==>
        result == StorageError && userWords == old(userWords) && nextUserWordId == old(nextUserWordId)
      ensures Insertable(uid, english, russian) ==>
        && userWords == old(userWords) + [UserWord(old(nextUserWordId), uid, Lower(english), Lower(russian), true)]
        && nextUserWordId == old(nextUserWordId) + 1
        && result == Added(english, ActiveCount(userWords, uid))
        && ActiveCount(userWords, uid) == old(ActiveCount(userWords, uid)) + 1
    {
      if !Insertable(uid, english, russian) {
        return StorageError;
      }
      var row := UserWord(nextUserWordId, uid, Lower(english), Lower(russian), true);
      ActiveCountAppend(userWords, row, uid);
      InsertKeepsWellFormed(userWords, nextUserWordId, row);
      userWords := userWords + [row];
      nextUserWordId := nextUserWordId + 1;
      result := Added(english, ActiveCount(userWords, uid));
    }

    /** `remove_word`: offers the user's active headwords, mapping each to the id
        of the last row with it among the rows the query returns (in no
        particular order). */
    method RemoveWord(uid: UserId) returns (result: RemoveMenu)
      ensures result.NothingToRemove? <==> ActiveCount(userWords, uid) == 0
      ensures result.Offer? ==>
        result.words.Keys == set w | w in userWords && w.owner == uid && w.active :: w.english
      ensures result.Offer? ==> forall h :: h in result.words ==>
        exists w :: w in userWords && w.owner == uid && w.active && w.english == h && w.id == result.words[h]
      ensures result.Offer? ==>
        exists rows :: multiset(rows) == multiset(ActiveRows(userWords, uid)) && IsWordMap(result.words, rows)
    {
      ActiveCountIsRows(userWords, uid);
      var active := ActiveRows(userWords, uid);
      var rows :| multiset(rows) == multiset(active);
      if rows == [] {
        return NothingToRemove;
      }
      assert forall w :: w in rows <==> w in active by {
        forall w ensures w in rows <==> w in active {
          assert w in rows <==> multiset(rows)[w] > 0;
          assert w in active <==> multiset(active)[w] > 0;
        }
      }
      var m := BuildWordMap(rows);
      forall h | h in m
        ensures exists w :: w in userWords && w.owner == uid && w.active && w.english == h && w.id == m[h]
      {
        var w := rows[LastIndexOf(rows, h)];
        assert w in rows;
      }
      result := Offer(m);
    }

    /** `confirm_remove`: the main-menu reply cancels; a reply that is no key of
        the offered map changes nothing; otherwise the row with the mapped id and
        this owner is soft-deleted. The map may be stale, so the row may already
        be inactive, in which case the count does not change. */
    method ConfirmRemove(uid: UserId, offered: map<string, Serial>, reply: string) returns (result: ConfirmResult)
      requires Valid()
      modifies this`userWords
      ensures Valid()
      ensures reply == MainMenu ==> result == RemoveCancelled && userWords == old(userWords)
      ensures reply != MainMenu && reply !in offered ==> result == NotFound && userWords == old(userWords)
      ensures reply != MainMenu && reply in offered ==>
        && userWords == Deactivate(old(userWords), offered[reply], uid)
        && result == Removed(ActiveCount(userWords, uid))
        && ActiveCount(userWords, uid)
             == old(ActiveCount(userWords, uid)) - (if HasActive(old(userWords), offered[reply], uid) then 1 else 0)
    {
      if reply == MainMenu {
        return RemoveCancelled;
      }
      if reply !in offered {
        return NotFound;
      }
      WellFormedDistinct(userWords, nextUserWordId);
      DeactivateKeepsWellFormed(userWords, nextUserWordId, offered[reply], uid);
      DeactivateCount(userWords, offered[reply], uid);
      userWords := Deactivate(userWords, offered[reply], uid);
      result := Removed(ActiveCount(userWords, uid));
    }

    /** `show_stats`: the active word count, the correct and total answer
        counts and the accuracy derived from them. */
    method ShowStats(uid: UserId) returns (result: StatsResult)
      ensures result.StatsUnknownTier? <==> TierOf(uid).None?
      ensures result.Stats? ==>
        && TierOf(uid) == Some(result.tier)
        && result.words == ActiveCount(userWords, uid)
        && result.correct == CorrectCount(stats, uid)
        && result.answered == AnswerCount(stats, uid)
        && result.correct <= result.answered
        && result.accuracy == Accuracy(result.correct, result.answered)
        && 0.0 <= result.accuracy <= 100.0
        && (result.answered == 0 ==> result.accuracy == 0.0)
    {
      var stored := StoredTier(uid);
      var words := ActiveCount(userWords, uid);
      var correct := CorrectCount(stats, uid);
      var answered := AnswerCount(stats, uid);
      CorrectAtMostAnswered(stats, uid);
      var accuracy := Accuracy(correct, answered);
      var tier := ResolveStored(stored);
      if tier.None? {
        return StatsUnknownTier(stored.value);
      }
      result := Stats(tier.value, words, correct, answered, accuracy);
    }

    /** `show_my_words`: the header and one line per active word, in the order
        the query returns them, packed into messages by `ChunkLines`. */
    method ShowMyWords(uid: UserId) returns (result: ListResult)
      requires Valid()
      ensures result.EmptyDictionary? <==> ActiveCount(userWords, uid) == 0
      ensures result.Listing? ==>
        && result.total == ActiveCount(userWords, uid)
        && (exists rows :: multiset(rows) == multiset(ActiveRows(userWords, uid))
              && IsChunking(result.messages, [DictionaryHeader] + DisplayLines(rows), MaxMessageLength))
        && IsGreedy(result.messages, MaxMessageLength)
        && forall k :: 0 <= k < |result.messages| ==>
             result.messages[k] != [] && |JoinLines(result.messages[k])| < MaxMessageLength
    {
      ActiveCountIsRows(userWords, uid);
      var active := ActiveRows(userWords, uid);
      var rows :| multiset(rows) == multiset(active);
      if rows == [] {
        return EmptyDictionary;
      }
      var lines := [DictionaryHeader] + DisplayLines(rows);
      forall j | 0 <= j < |lines| ensures |lines[j]| + 1 <= MaxMessageLength {
        if j > 0 {
          var w := rows[j - 1];
          assert multiset(rows)[w] > 0;
          assert w in active;
          assert w in userWords;
        }
      }
      var parts := ChunkLines(lines, MaxMessageLength);
      ShortLinesFit(parts, lines, MaxMessageLength);
      result := Listing(parts, |rows|);
    }

    /** `set_difficulty_level`: a message that is a tier's name once every
        "✓ " is removed stores that tier's key for the user (an UPDATE, so
        nothing for an unregistered user); any other message is not handled
        here. */
    method SetDifficultyLevel(uid: UserId, text: string) returns (result: TierChange)
      modifies this`users
      ensures TierFromButton(text).None? ==> result == NotTierButton && users == old(users)
      ensures TierFromButton(text).Some? ==>
        && result == TierSet(TierFromButton(text).value)
        && users == (if uid in old(users) then old(users)[uid := Some(Key(result.tier))] else old(users))
      ensures result.TierSet? && uid in users ==> TierOf(uid) == Some(result.tier)
    {
      var tier := TierFromButton(text);
      if tier.None? {
        return NotTierButton;
      }
      if uid in users {
        users := users[uid := Some(Key(tier.value))];
        StoredKeyResolves(tier.value);
      }
      result := TierSet(tier.value);
    }
  }
}
