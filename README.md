# EnglishCard: a verified model of the quiz and dictionary engine

EnglishCard is a Telegram bot for learning English words. It keeps three
tables: a shared corpus of `common_words`, each user's personal `user_words`,
and a history of answered questions, `user_stats`. This project models the
engine that remains once the Telegram transport and the PostgreSQL plumbing
are removed. It proves what the handlers promise about that state:

- **Tier policy.** The three difficulty tiers each have a pool limit and a
  category filter on the shared corpus. A tier is resolved from the stored
  `users.difficulty` value, or from the text of a tier button.
- **Questions.** `start_quiz` draws the question word from the union of the
  tier-filtered shared words and the user's active personal words. It then
  builds up to four options: the correct translation plus up to three wrong
  ones, shuffled.
- **Scoring.** `check_quiz_answer` compares the reply with the correct
  translation exactly. It records one event whose word reference is signed:
  positive for a shared word, negative for a personal one.
- **Personal dictionary.**
  - `process_new_word` parses `english - russian` at the first dash, trims
    and lower-cases both sides, and inserts an active row.
  - `remove_word` offers a map from headword to id.
  - `confirm_remove` soft-deletes the chosen row.
- **Statistics.** `show_stats` reports the active word count, the correct and
  total answer counts, and the accuracy derived from them.
- **Listing.** `show_my_words` uses a greedy loop to pack the dictionary's
  display lines into messages of at most 3000 characters.

The tables are the fields of the class `Bot.Store`. Its handler methods change
them in place and return what the user is told. Pure logic lives in
datatypes and functions:

| file | module |
|---|---|
| `text.dfy` | `Text`: Python's `strip`, `lower`, `split` and `replace` |
| `tiers.dfy` | `Tiers` |
| `vocabulary.dfy` | `Vocabulary`: table rows, the query results as functions, counts, the signed reference, the soft-delete update, accuracy |
| `quiz.dfy` | `Quiz`: sampling, shuffling and options |
| `word_entry.dfy` | `WordEntry`: parsing a word pair |
| `chunking.dfy` | `Chunking`: the `show_my_words` loop, as a method with invariants |
| `bot.dfy` | `Bot`: the handlers |
| `scenarios.dfy` | `Scenarios`: concrete cases on seed-corpus rows |

`ORDER BY RANDOM() LIMIT n` is modelled as a choice of any `min(n, |pool|)`
rows of the pool. `random.shuffle` is modelled as a choice of any
permutation. Which choice is made is left open, so every contract holds for
every outcome of the randomness.

Some of what the code does differs from what its own comments, or a reader,
would expect. The model follows the code:

- **Unknown stored tier.** A missing row, a NULL or an empty
  `users.difficulty` selects `medium` (main.py:465-467). Any other value is
  looked up in `DIFFICULTY_LEVELS`, and a value that is no key raises
  `KeyError`, which ends the handler (main.py:468). The model reports this as
  `UnknownTier` / `StatsUnknownTier`. The handlers themselves only ever store
  a key.
- **Repeated wrong options.** The docstring of `start_quiz` promises "1
  correct + 3 random wrong" options (main.py:449). The query that draws the
  wrong options uses `UNION ALL` without `DISTINCT` (main.py:527-532).
  - Every qualifying row adds one entry to the pool, so a translation that
    several rows share can be offered more than once
    (`Quiz.WrongOptionsMayRepeat`, `Quiz.SharedTranslationFillsOptions`).
  - Four options are offered exactly when at least three rows carry a
    translation other than the correct one; otherwise fewer are offered
    (`Quiz.FourOptions`).
- **Stale removal menu.** `confirm_remove` checks only the map that
  `remove_word` offered (main.py:944). A headword whose row was deactivated
  after the menu was shown is reported as removed again, and the count does
  not change (`Bot.Store.ConfirmRemove`).
- **Unregistered users.** `user_words` and `user_stats` reference `users`.
  For a user without a `users` row:
  - the insert of `process_new_word` fails with an error message;
  - `check_quiz_answer` still tells the user the outcome but records nothing;
  - `set_difficulty_level` updates no row but still confirms the new tier.

## Model

| member | source | states |
|---|---|---|
| Text.IsSpace | main.py:806 | no contract of its own: the characters Python's `str.isspace` accepts, which `strip()` removes; its use is stated by the Text.Strip and Text.StripPadded rows |
| Text.Strip | main.py:806-809 | the result has no surrounding whitespace, is no longer than the input, consists of the input's characters, and is empty exactly when the input is all whitespace |
| Text.StripPadded | main.py:806-809 | `strip()` removes exactly the whitespace padding around a stripped string and nothing of the string itself |
| Text.StripStripped | main.py:809 | a string with no whitespace at either end is its own `strip()` |
| Text.IndexOf | main.py:809 | the position found holds the separator and no earlier position does; none exactly when the separator is absent |
| Text.SplitOnce | main.py:809 | `split(c, 1)` yields two parts exactly when `c` occurs; the parts rebuild the input around the first `c`, and the first part has no `c` |
| Text.SplitOnceUnique | main.py:809 | any decomposition of the text around a separator with none before it is the split `split(c, 1)` returns |
| Text.LowerChar | main.py:820 | a character changes exactly when it is a modelled capital, the result is never a capital, and whitespace stays whitespace |
| Text.Lower | main.py:820 | lower-casing keeps the length, leaves no modelled capital, changes only capitals and keeps a stripped string stripped |
| Text.LowerIdempotent | main.py:820 | lower-casing a lower-cased string changes nothing |
| Text.RemoveAll | main.py:404 | removing every occurrence of the check mark never lengthens the text and leaves text without it unchanged |
| Text.RemoveAllPrefix | main.py:404 | a leading check mark disappears and the rest is treated as before |
| Tiers.Key | main.py:35-42 | the key a tier is stored under is non-empty and fits the VARCHAR(10) `users.difficulty` column |
| Tiers.DisplayName | main.py:35-42 | a tier's display name is non-empty and contains no check mark, so removing check marks leaves it intact |
| Tiers.Allows | main.py:477-507 | no contract of its own: easy admits only the colour, pronoun and number categories, medium everything but the difficult category, NULL included, and hard everything; Tiers.TiersNested states how they nest and Vocabulary.CommonPool which rows they admit |
| Tiers.WordsLimit | main.py:35-41 | every tier lets each pool contribute at least ten candidates |
| Tiers.TiersNested | main.py:470-514 | easy's filter admits a subset of medium's and medium's a subset of hard's, and the pool limits grow strictly from easy to hard |
| Tiers.TierOfKey | main.py:468 | the lookup succeeds exactly for the key of a tier and returns that tier |
| Tiers.ResolveStored | main.py:465-468 | a missing row, NULL or empty stored value resolves to medium; any other value resolves to the tier with that key, or to none |
| Tiers.StoredKeyResolves | main.py:413-415 | the key a tier change stores resolves to that same tier when read back |
| Tiers.TierNamed | main.py:406-407 | the tier found has exactly the given display name; none when no tier has it |
| Tiers.NameFindsTier | main.py:405-406 | looking up a tier's own display name finds that tier, because the three names differ |
| Tiers.TierFromButton | main.py:387-389 | a message selects the tier whose name is the text with every check mark removed, and no tier when no name matches |
| Tiers.ButtonSelectsTier | main.py:404-407 | each tier's button selects that tier, both plain and with the check mark the menu puts on the current tier |
| Vocabulary.EncodeRef | main.py:619-628 | the stored reference is non-zero, positive exactly for a shared word, and equal to the id up to sign |
| Vocabulary.DecodeRef | main.py:619-628 | a reference reads back as a table and id exactly when it is non-zero, the shared table exactly when positive |
| Vocabulary.RefRoundTrip | main.py:619-628 | decoding inverts encoding and encoding inverts decoding, since ids start at 1 |
| Vocabulary.EncodeRefInjective | main.py:619-628 | two (table, id) pairs get the same reference exactly when they are equal |
| Vocabulary.CommonPool | main.py:470-514 | a shared candidate is a corpus row the tier's filter admits, and every such row is a candidate |
| Vocabulary.ActiveRows | main.py:874-878 | the rows returned are exactly the user's active rows |
| Vocabulary.PersonalPool | main.py:480-483 | a personal candidate is exactly one of the user's active rows, at every tier, one per row |
| Vocabulary.DistractorPool | main.py:526-533 | the wrong-option pool holds exactly the corpus translations and the user's active translations that differ from the correct one, never the correct one, and as a multiset it is the two translation columns with every copy of the correct one removed: one entry per qualifying row |
| Vocabulary.CommonTranslations | main.py:528 | exactly the corpus translations that differ from the correct one; how often each occurs is stated by Vocabulary.CommonTranslationsMultiset |
| Vocabulary.PersonalTranslations | main.py:530-531 | exactly the user's active translations that differ from the correct one; how often each occurs is stated by Vocabulary.PersonalTranslationsMultiset |
| Vocabulary.CommonTranslationsMultiset | main.py:528 | as a multiset, the corpus part of the pool is the corpus's translation column with every copy of the correct one removed: one entry per corpus row that differs |
| Vocabulary.PersonalTranslationsMultiset | main.py:530-531 | as a multiset, the personal part of the pool is the translation column of the user's active rows with every copy of the correct one removed |
| Vocabulary.CommonTranslationsSize | main.py:528 | the corpus part of the pool has as many entries as the corpus has rows, less the rows translated as the correct option |
| Vocabulary.PersonalTranslationsSize | main.py:530-531 | the personal part of the pool has as many entries as the user has active rows, less the rows translated as the correct option |
| Vocabulary.ActiveCount | main.py:1011-1015 | the user's active word count is at most the number of rows |
| Vocabulary.ActiveCountZero | main.py:1011-1015 | the active count is zero exactly when the user has no active row |
| Vocabulary.CorrectCount | main.py:1017-1021 | the user's correct-answer count is at most the number of events |
| Vocabulary.AnswerCount | main.py:1023-1027 | the user's answer count is at most the number of events |
| Vocabulary.AnswerCountsZero | main.py:1017-1027 | the answer count is zero exactly when the user answered nothing, and the correct count exactly when none of their answers was right |
| Vocabulary.ActiveCountIsRows | main.py:1011-1015 | the active word count equals the number of active rows the user has |
| Vocabulary.CorrectAtMostAnswered | main.py:1017-1027 | the correct-answer count never exceeds the answer count |
| Vocabulary.ActiveCountAppend | main.py:817-827 | inserting a row raises the user's active count by one exactly when it is an active row of that user |
| Vocabulary.AnswerCountsAppend | main.py:619-628 | recording an event raises its user's answer count by one, and the correct count by one when it is correct |
| Vocabulary.Deactivate | main.py:953-957 | the soft delete keeps every row and clears the flag of exactly the row with that id and owner |
| Vocabulary.DeactivateCount | main.py:953-964 | with distinct ids, the soft delete lowers the active count by one when that row was active, and leaves it unchanged otherwise |
| Vocabulary.DeactivateKeepsRows | main.py:953-957 | the soft delete changes no row's id, owner, headword or translation |
| Vocabulary.Accuracy | main.py:1029 | accuracy is 0 without answers, otherwise correct/total times 100, and lies in [0, 100] when correct does not exceed total |
| Quiz.PrefixIsSample | main.py:532 | a `LIMIT n` draw is always possible: the first `min(n, size)` rows are one |
| Quiz.SampleFromPool | main.py:532 | every row a draw returns comes from the pool it was drawn from |
| Quiz.DrawSample | main.py:532 | a draw returns exactly `min(n, size)` rows of the pool, none more often than in the pool |
| Quiz.DrawOne | main.py:484-517 | no row exactly when the input is empty, otherwise one of its rows |
| Quiz.Shuffle | main.py:537 | the shuffled list is a permutation of its input |
| Quiz.OptionsInvariant | main.py:526-537 | the options number one plus `min(3, pool size)`, at most 4; the correct translation appears exactly once; every other option comes from the wrong-option pool |
| Quiz.BuildOptions | main.py:526-537 | the options are a shuffle of the correct translation with a draw of wrong ones; the correct one appears once; there are at most four |
| Vocabulary.DistractorPoolSize | main.py:526-533 | the wrong-option pool has one entry per corpus row and per active row of the user, less the rows translated as the correct option |
| Quiz.FourOptions | main.py:449-537 | a question gets the four options the docstring promises exactly when at least three corpus rows and active rows of the user carry a translation other than the correct one; the correct one is offered once |
| Quiz.SharedTranslationPool | main.py:527-532 | three corpus rows sharing a wrong translation put it into the pool three times |
| Quiz.SharedTranslationFillsOptions | main.py:526-537 | with three corpus rows sharing a wrong translation, every question offers four options: the correct one and that translation three times |
| Quiz.WrongOptionsMayRepeat | main.py:527-532 | when a corpus word and an active word of the user share a translation other than the correct one, the wrong-option pool holds it twice, and an option list offering both copies is a possible outcome |
| Chunking.JoinLines | main.py:718-725 | no contract of its own: `"\n".join` of a message's lines; Chunking.JoinLength relates its length to the weight the loop counts |
| Chunking.JoinLength | main.py:716-725 | a message's text is one character shorter than the weight the loop accounts for it |
| Chunking.InFlatten | main.py:715-725 | every line of every message is a line of the listing |
| Chunking.ChunkLines | main.py:711-725 | the messages, concatenated, are the lines in order, with nothing dropped or repeated; each is within the limit or is a single oversized line; only the first is empty, and only when the first line is oversized; no message could have taken the first line of the next one; the last one is non-empty |
| Chunking.ShortLinesFit | main.py:711-725 | when every line fits, no message is empty and every message's text is shorter than the limit |
| Bot.DisplayLine | main.py:709 | an entry's line is five characters longer than its headword and translation together |
| Bot.DisplayLines | main.py:709 | one display line per entry, in order |
| Bot.LastIndexOf | main.py:889-891 | the index found is of the last row with that headword, or -1 when no row has it |
| Bot.BuildWordMap | main.py:888-891 | the map's keys are exactly the headwords of the rows, and each maps to the id of the last row with it |
| Bot.InsertKeepsWellFormed | main.py:134-140 | inserting a row that fits its columns, under the sequence's next id, keeps ids increasing and below the sequence, and every word within 100 characters |
| Bot.DeactivateKeepsWellFormed | main.py:953-957 | the soft delete keeps the table's invariants |
| Bot.WellFormedDistinct | main.py:135 | ids the sequence handed out in increasing order are distinct |
| Bot.AddThenRemoveRestoresCount | main.py:817-827 | adding a word raises the user's active count by one, and removing the row just added brings the count back to what it was |
| Bot.Store.constructor | main.py:89-150 | the store starts with the given corpus and users, no personal words, no answers, and the sequence at 1 |
| Bot.Store.StoredTier | main.py:463-467 | a stored tier value exists only for a registered user |
| Bot.Store.TierOf | main.py:465-468 | a user without a row has the medium tier |
| Bot.Store.Start | main.py:257-266 | an unknown user is registered with the medium tier; a known user's row is left unchanged |
| Bot.Store.StartQuiz | main.py:463-537 | a bad stored tier is reported as such; no question exactly when both pools are empty; otherwise the word comes from the tier's shared pool or the user's active words, and the options satisfy the options invariant over the wrong-option pool, with the correct translation once and at most four options |
| Bot.Store.CheckQuizAnswer | main.py:597-629 | the main-menu reply cancels and records nothing; any other reply is correct exactly when it equals the translation; a registered user gets one event with the signed reference, raising the answer count by one and the correct count when right; an unregistered user gets nothing recorded |
| Bot.Store.Insertable | main.py:134-140 | no contract of its own: the insert succeeds exactly for a registered user whose two words fit their VARCHAR(100) columns; Bot.Store.InsertWord states both outcomes |
| Bot.Store.ProcessNewWord | main.py:805-850 | a malformed message is rejected with the reason and changes nothing; a failing insert changes nothing; otherwise one active row with both words lower-cased is appended under the sequence's next id, the sequence advances by one, and the reported count is the new active count, one more than before |
| Bot.Store.InsertWord | main.py:817-827 | the insert appends one active, lower-cased row under the sequence's next id, advances the sequence by one and raises the active count by one, or fails and changes nothing |
| Bot.Store.RemoveWord | main.py:874-891 | nothing to remove exactly when the user has no active word; otherwise the offered headwords are exactly the user's active headwords, each mapped to the id of one of its active rows, the last one in some order of the rows |
| Bot.Store.ConfirmRemove | main.py:936-964 | the main-menu reply cancels; a reply not offered changes nothing; otherwise only the offered row of this user is soft-deleted, and the count reported is the new count, one lower exactly when that row was still active |
| Bot.Store.ShowStats | main.py:1005-1029 | the counts are the user's active words, correct answers and answers; correct never exceeds answered; the accuracy is Vocabulary.Accuracy of the two counts, so it is correct/answered times 100, 0 without answers, and within [0, 100] |
| Bot.Store.ShowMyWords | main.py:693-725 | an empty dictionary exactly when there is no active word; otherwise the messages, concatenated, are the header and one line per active row; each is within the limit, no message could have taken the first line of the next, every message is non-empty and shorter than 3000 characters, and the total is the active count |
| Bot.Store.SetDifficultyLevel | main.py:387-415 | a message that is no tier button is not handled; a tier button stores that tier's key for a registered user, so the user's tier becomes it, and changes nothing for an unregistered one |
| Scenarios.EasyPoolOfSample | main.py:477 | easy asks only the colour word |
| Scenarios.MediumPoolOfSample | main.py:492 | medium asks every word except the difficult one, the untagged word included |
| Scenarios.HardPoolOfSample | main.py:505-507 | hard asks every word |
| Scenarios.HalfRight | main.py:1029 | one right answer out of two is 50 % |
| Scenarios.ParsesSpacedPair | main.py:806-811 | `" Apple - Яблоко "` parses to `("Apple", "Яблоко")` |
| Scenarios.SecondDashStaysInTranslation | main.py:809 | `"e-mail - эл-почта"` splits at the first dash: the later dash stays in the translation |
| Scenarios.DuplicateHeadwordKeepsLastId | main.py:889-891 | two active rows with the same headword give one menu entry, for the later row's id |
| Scenarios.LoweredIsNotMainMenu | main.py:939 | a lower-cased headword is never the main-menu button's text, so choosing a stored word is never taken for a cancel |
| Scenarios.TypedPairParses | main.py:846-847 | a pair typed in the prompted format parses to its two words |
| WordEntry.ParseWordPair | main.py:806-811 | the message is rejected for a missing dash exactly when the stripped text has none; an accepted pair has two non-empty, trimmed sides, and the headword has no dash |
| WordEntry.ParseAcceptsIff | main.py:806-811 | the message is accepted exactly when neither side of the first dash is blank, and then the pair is the two trimmed sides; it is rejected for an empty side exactly when one is blank |
| WordEntry.FormatRoundTrip | main.py:806-811 | writing a pair in the prompted format, with any whitespace around the words and the dash, and parsing it gives the pair back |
| WordEntry.NoDashRejected | main.py:809 | a message without a dash is rejected for the missing separator |

## Left out

- The Telegram transport is not modelled: sending messages, keyboards,
  `register_next_step_handler` continuations, polling, the help and welcome
  texts. The handlers' outcomes are datatypes instead of messages.
- `show_difficulty_menu`, `handle_text` and the dispatch lambdas of the other
  buttons only route messages or draw menus, and are not modelled.
- The psycopg2 plumbing is not modelled: `safe_connect`, commits and a failed
  connection. When the connection fails, no table changes:
  - `start` returns silently;
  - `process_new_word` and `confirm_remove` send nothing;
  - `check_quiz_answer` still sends its feedback;
  - the other handlers report a database connection error.

  Each handler is modelled as one atomic step on a working store.
- `initialize_database` is not modelled: schema creation and corpus seeding.
  A few seed rows appear only as data in `scenarios.dfy`.
- The uniformity of `ORDER BY RANDOM()` and `random.shuffle` cannot be
  stated here. Only which outcomes are possible is modelled.
- Bot.Store.ShowMyWords: does not state the alphabetical order of
  `ORDER BY english_word`, whose collation depends on the database locale;
  the contract admits any order of the active rows.
- Bot.Store.ShowStats: keeps accuracy as an exact rational. The `:.1f`
  rounding of the message is floating-point formatting and is not modelled.
- Text.Lower: covers only the Latin A-Z and the Cyrillic U+0400-U+042F
  capitals. Other Unicode case mappings are not modelled, including those
  that change a string's length.
- Text.LowerChar: lowers only the same capitals as Text.Lower, for the same
  reason.
- Bot.Store.InsertWord: advances the `user_words` sequence only when the
  insert succeeds. PostgreSQL also consumes a value on a failed insert, which
  leaves gaps. Ids stay increasing either way.
- Bot.Store.Insertable: checks only the foreign key and the two VARCHAR(100)
  columns. Other database failures are part of the connection plumbing above.
- The `users` columns other than the tier are not modelled: the name
  columns and the timestamps.
- The `user_stats` row id and timestamp are not modelled.
- Integers are unbounded. `common_words.word_id` and `user_words.user_word_id`
  are SERIAL and `user_stats.word_id` is INTEGER, all 32-bit (main.py:125,
  135, 149). The model's `Serial` has no upper bound, so a sequence running
  out past 2^31-1 and an overflowing `word_id` are not modelled.
- Exception messages and console logging are not modelled.
- A message with no text (a sticker or photo) is not modelled. Every message
  is taken to have a text.
